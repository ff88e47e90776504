/** What each counter of a run counts (app/pipeline/runner.py, RunStats). */
module Counting {
  import opened Text
  import Domain
  import opened Store
  import opened Suppressions
  import opened Pipeline
  import opened Workers
  import opened Tables

  function Count(items: seq<Item>, counted: Item -> bool): nat {
    if items == [] then 0
    else Count(items[..|items| - 1], counted) + if counted(items[|items| - 1]) then 1 else 0
  }

  /** The record could be normalised. */
  predicate Read(item: Item) {
    item.Incoming? && item.fault != Unreadable
  }

  predicate Refused(run: Run, item: Item) {
    Read(item) && Blocks(run.blocked, item.lead).Some?
  }

  /** The record was not suppressed, could be graded, and got this grade. */
  predicate Got(env: Env, run: Run, item: Item, grade: Domain.ValidationStatus) {
    Read(item) && !Refused(run, item) && item.fault != Ungraded && ValidateLead(env, item.lead) == grade
  }

  /** The record could be filed with a lead. */
  predicate Filed(run: Run, item: Item) {
    Read(item) && !Refused(run, item) && item.fault in {NoFault, Unreviewed}
  }

  lemma StoredCounts(s: Progress, env: Env, run: Run, id: nat, lead: Domain.NormalizedLead, fault: Fault)
    ensures var c, d := s.stats, AfterStored(s, env, run, id, lead, fault).stats;
      var best, own := BestFor(s.db, id, lead), OwnLead(s.db, id);
      var known := (best.Some? && best.value.result.autoMerge) || own.Some?;
      var weak := best.Some? && !best.value.result.autoMerge;
      d == c.(duplicates := c.duplicates + if known then 1 else 0, newLeads := c.newLeads + if known then 0 else 1,
              needsReview := c.needsReview + if weak && fault != Unreviewed then 1 else 0)
  {
    hide Attached, BestFor, Reviewed, OwnLead;
  }

  /**
   * What one item adds to each counter. A filed record is a duplicate if it merges or has a lead already, else a
   * new lead, and needs review if its best match is weak; every other item but a suppressed one is an error.
   */
  lemma ItemCounts(s: Progress, env: Env, run: Run, item: Item)
    ensures var c, d := s.stats, AfterItem(s, env, run, item).stats;
      d.collected == c.collected + (if Read(item) then 1 else 0) &&
      d.suppressed == c.suppressed + (if Refused(run, item) then 1 else 0) &&
      d.valid == c.valid + (if Got(env, run, item, Domain.Valid) then 1 else 0) &&
      d.invalid == c.invalid + (if Got(env, run, item, Domain.Invalid) then 1 else 0) &&
      d.unknown == c.unknown + (if Got(env, run, item, Domain.Unknown) then 1 else 0) &&
      if Filed(run, item) then
        var db1, id := Upsert(s.db, env, run.sourceId, item.lead), UpsertId(s.db, env, run.sourceId, item.lead);
        var best, own := BestFor(db1, id, item.lead), OwnLead(db1, id);
        var known := (best.Some? && best.value.result.autoMerge) || own.Some?;
        var weak := best.Some? && !best.value.result.autoMerge;
        d.duplicates == c.duplicates + (if known then 1 else 0) &&
        d.newLeads == c.newLeads + (if known then 0 else 1) &&
        d.needsReview == c.needsReview + (if weak && item.fault == NoFault then 1 else 0) &&
        d.errors == c.errors + (if weak && item.fault == Unreviewed then 1 else 0)
      else
        d.duplicates == c.duplicates && d.newLeads == c.newLeads && d.needsReview == c.needsReview &&
        d.errors == c.errors + (if Refused(run, item) then 0 else 1)
  {
    hide Upsert, UpsertId, AfterStored, BestFor, ValidateLead, Blocks, OwnLead;
    if Filed(run, item) {
      var db1, id := Upsert(s.db, env, run.sourceId, item.lead), UpsertId(s.db, env, run.sourceId, item.lead);
      var graded := Graded(s.stats.(collected := s.stats.collected + 1), ValidateLead(env, item.lead));
      StoredCounts(Progress(db1, graded), env, run, id, item.lead, item.fault);
    }
  }

  /** Every counter is the number of items it is about. */
  lemma {:induction false} CountersCountItems(start: Db, env: Env, run: Run, items: seq<Item>)
    ensures var c := Collected(Progress(start, NO_COUNTS), env, run, items).stats;
      c.collected == Count(items, item => Read(item)) &&
      c.suppressed == Count(items, item => Refused(run, item)) &&
      c.valid == Count(items, item => Got(env, run, item, Domain.Valid)) &&
      c.invalid == Count(items, item => Got(env, run, item, Domain.Invalid)) &&
      c.unknown == Count(items, item => Got(env, run, item, Domain.Unknown)) &&
      c.duplicates + c.newLeads == Count(items, item => Filed(run, item))
  {
    hide AfterItem, Got, Refused, Filed, Read;
    if items != [] {
      var init := items[..|items| - 1];
      CountersCountItems(start, env, run, init);
      ItemCounts(Collected(Progress(start, NO_COUNTS), env, run, init), env, run, items[|items| - 1]);
    }
  }

  /** And so is every number that is saved with the job. */
  lemma SavedResultsCountItems(db: Db, env: Env, entries: Table<Entry>, sourceId: nat, task: Task)
    ensures var run, r := RunOf(sourceId, task, entries), Persisted(Gathered(db, env, entries, sourceId, task).stats);
      r.collected == Count(task.items, item => Read(item)) &&
      r.suppressed == Count(task.items, item => Refused(run, item)) &&
      r.valid == Count(task.items, item => Got(env, run, item, Domain.Valid)) &&
      r.invalid == Count(task.items, item => Got(env, run, item, Domain.Invalid)) &&
      r.duplicates + r.newLeads == Count(task.items, item => Filed(run, item))
  {
    hide Collected, Got, Refused, Filed, Read, Load;
    var configured := db.(sources := db.sources[sourceId := task.source]);
    CountersCountItems(configured, env, RunOf(sourceId, task, entries), task.items);
  }
}
