/** Ingesting one collection (app/pipeline/runner.py). */
module Pipeline {
  import opened Text
  import opened Domain
  import opened OriginKeys
  import opened Merging
  import opened Tables
  import opened Store
  import opened Suppressions

  /** Where the ingestion of a record raises, if it does. */
  datatype Fault =
    | NoFault
    | Unreadable   // while normalising
    | Ungraded     // while validating
    | Unstored     // while upserting the record
    | Unlinked     // after the record is stored, before any lead is touched
    | Unreviewed   // while adding the review link

  datatype Item = Rejected | Incoming(lead: NormalizedLead, fault: Fault)

  /** What stays fixed during one run. */
  datatype Run = Run(sourceId: nat, priority: int, blocked: SuppressionList)

  datatype Counters = Counters(
    collected: nat, valid: nat, invalid: nat, unknown: nat, duplicates: nat, newLeads: nat,
    needsReview: nat, suppressed: nat, errors: nat)

  const NO_COUNTS := Counters(0, 0, 0, 0, 0, 0, 0, 0, 0)

  datatype Progress = Progress(db: Db, stats: Counters)

  // ---- one ingest as a function of the tables ----

  /** The lead owning the record, if that lead exists. */
  function OwnLead(db: Db, recordId: nat): Option<nat> {
    var owner := Owner(db, recordId);
    if owner.Some? && owner.value in db.leads.rows then owner else None
  }

  predicate MergesInto(best: Option<Found>) {
    best.Some? && best.value.result.autoMerge
  }

  predicate AwaitsReview(best: Option<Found>) {
    best.Some? && !best.value.result.autoMerge
  }

  function MatchLink(best: Found, needsReview: bool): Link {
    Link(Matched(best.result.rule), best.result.confidence, needsReview)
  }

  /** The best stored match of an upserted record, leaving its own lead out. */
  function BestFor(db: Db, recordId: nat, lead: NormalizedLead): (best: Option<Found>)
    ensures best.Some? ==> best.value.id in db.leads.rows && Some(best.value.id) != OwnLead(db, recordId)
    ensures best.Some? ==> MatchStored(db.leads, lead, best.value.id) == Some(best.value.result)
  {
    BestMatch(db.leads, lead, OwnLead(db, recordId))
  }

  /** Merge into the match, refresh the record's own lead, or start a new lead. */
  function Attached(db: Db, env: Env, recordId: nat, lead: NormalizedLead, priority: int): Db {
    var own, best := OwnLead(db, recordId), BestFor(db, recordId, lead);
    var incoming := Candidate(lead, Decimal(recordId), priority);
    if MergesInto(best) then
      Linked(Remerge(db, env, best.value.id, incoming), best.value.id, recordId, MatchLink(best.value, false), true)
    else if own.Some? then
      Remerge(db, env, own.value, incoming)
    else
      Linked(Create(db, MergeOf([incoming]), ValidateLead(env, lead)), db.leads.next, recordId,
             Link(Initial, 1.0, false), true)
  }

  function Reviewed(db: Db, recordId: nat, best: Option<Found>): Db {
    if AwaitsReview(best) then Linked(db, best.value.id, recordId, MatchLink(best.value, true), false) else db
  }

  // ---- counters ----

  function Graded(c: Counters, status: ValidationStatus): Counters {
    match status
    case Valid => c.(valid := c.valid + 1)
    case Invalid => c.(invalid := c.invalid + 1)
    case Unknown => c.(unknown := c.unknown + 1)
  }

  function AttachedCount(c: Counters, db: Db, recordId: nat, lead: NormalizedLead): Counters {
    if MergesInto(BestFor(db, recordId, lead)) || OwnLead(db, recordId).Some?
    then c.(duplicates := c.duplicates + 1)
    else c.(newLeads := c.newLeads + 1)
  }

  /** From the stored record on: attach it to a lead, then flag a weaker match for review. */
  function AfterStored(s: Progress, env: Env, run: Run, id: nat, lead: NormalizedLead, fault: Fault): Progress {
    var best := BestFor(s.db, id, lead);
    var attached := Progress(Attached(s.db, env, id, lead, run.priority), AttachedCount(s.stats, s.db, id, lead));
    if !AwaitsReview(best) || fault == Unreviewed then attached
    else Progress(Reviewed(attached.db, id, best), attached.stats.(needsReview := attached.stats.needsReview + 1))
  }

  /** From the graded record on: store it, then file it. */
  function AfterGraded(s: Progress, env: Env, run: Run, lead: NormalizedLead, fault: Fault): Progress {
    if fault == Unstored then s
    else
      var stored := s.(db := Upsert(s.db, env, run.sourceId, lead));
      if fault == Unlinked then stored
      else AfterStored(stored, env, run, UpsertId(s.db, env, run.sourceId, lead), lead, fault)
  }

  /** Everything one record does to tables and counters, up to where it raises. */
  function AfterRecord(s: Progress, env: Env, run: Run, lead: NormalizedLead, fault: Fault): Progress {
    var c := s.stats.(collected := s.stats.collected + 1);
    if fault == Unreadable then s
    else if Blocks(run.blocked, lead).Some? then s.(stats := c.(suppressed := c.suppressed + 1))
    else if fault == Ungraded then s.(stats := c)
    else AfterGraded(s.(stats := Graded(c, ValidateLead(env, lead))), env, run, lead, fault)
  }

  predicate FilingRaises(db: Db, env: Env, run: Run, lead: NormalizedLead, fault: Fault) {
    fault == Unstored || fault == Unlinked ||
    (fault == Unreviewed &&
     AwaitsReview(BestFor(Upsert(db, env, run.sourceId, lead), UpsertId(db, env, run.sourceId, lead), lead)))
  }

  predicate Raises(db: Db, env: Env, run: Run, lead: NormalizedLead, fault: Fault) {
    fault == Unreadable ||
    (Blocks(run.blocked, lead).None? && (fault == Ungraded || FilingRaises(db, env, run, lead, fault)))
  }

  /** One item of a run: a rejected or raising record is counted as an error and the run goes on. */
  function AfterItem(s: Progress, env: Env, run: Run, item: Item): Progress {
    match item
    case Rejected => s.(stats := s.stats.(errors := s.stats.errors + 1))
    case Incoming(lead, fault) =>
      var t := AfterRecord(s, env, run, lead, fault);
      if Raises(s.db, env, run, lead, fault) then t.(stats := t.stats.(errors := t.stats.errors + 1)) else t
  }

  function Collected(s: Progress, env: Env, run: Run, items: seq<Item>): Progress {
    if items == [] then s
    else AfterItem(Collected(s, env, run, items[..|items| - 1]), env, run, items[|items| - 1])
  }

  // ---- the same, as the run executes it ----

  class RunStats {
    var collected: nat
    var valid: nat
    var invalid: nat
    var unknown: nat
    var duplicates: nat
    var newLeads: nat
    var needsReview: nat
    var suppressed: nat
    var errors: nat

    constructor ()
      ensures Value() == NO_COUNTS
    {
      collected, valid, invalid, unknown := 0, 0, 0, 0;
      duplicates, newLeads, needsReview, suppressed, errors := 0, 0, 0, 0, 0;
    }

    function Value(): Counters
      reads this
    {
      Counters(collected, valid, invalid, unknown, duplicates, newLeads, needsReview, suppressed, errors)
    }
  }

  method CountGrade(stats: RunStats, status: ValidationStatus)
    modifies stats
    ensures stats.Value() == Graded(old(stats.Value()), status)
  {
    match status {
      case Valid => stats.valid := stats.valid + 1;
      case Invalid => stats.invalid := stats.invalid + 1;
      case Unknown => stats.unknown := stats.unknown + 1;
    }
  }

  method Ingest(db: Database, stats: RunStats, env: Env, run: Run, lead: NormalizedLead, fault: Fault)
    returns (raised: bool)
    modifies db, stats
    ensures Progress(db.State(), stats.Value()) ==
      AfterRecord(Progress(old(db.State()), old(stats.Value())), env, run, lead, fault)
    ensures raised == Raises(old(db.State()), env, run, lead, fault)
  {
    hide Upsert, UpsertId, AfterGraded, BestFor, Blocks, AwaitsReview, ValidateLead, Graded;
    if fault == Unreadable {
      return true;
    }
    stats.collected := stats.collected + 1;

    if Blocks(run.blocked, lead).Some? {
      stats.suppressed := stats.suppressed + 1;
      return false;
    }

    if fault == Ungraded {
      return true;
    }
    CountGrade(stats, ValidateLead(env, lead));

    raised := StoreRecord(db, stats, env, run, lead, fault);
  }

  method StoreRecord(db: Database, stats: RunStats, env: Env, run: Run, lead: NormalizedLead, fault: Fault)
    returns (raised: bool)
    modifies db, stats
    ensures Progress(db.State(), stats.Value()) ==
      AfterGraded(Progress(old(db.State()), old(stats.Value())), env, run, lead, fault)
    ensures raised == FilingRaises(old(db.State()), env, run, lead, fault)
  {
    hide Upsert, UpsertId, AfterStored, BestFor, AwaitsReview;
    if fault == Unstored {
      return true;
    }
    var recordId, _ := db.UpsertRecord(env, run.sourceId, lead);
    if fault == Unlinked {
      return true;
    }
    raised := FileRecord(db, stats, env, run, recordId, lead, fault);
  }

  method FileRecord(db: Database, stats: RunStats, env: Env, run: Run, recordId: nat, lead: NormalizedLead,
                    fault: Fault)
    returns (raised: bool)
    modifies db, stats
    ensures Progress(db.State(), stats.Value()) ==
      AfterStored(Progress(old(db.State()), old(stats.Value())), env, run, recordId, lead, fault)
    ensures raised <==> fault == Unreviewed && AwaitsReview(BestFor(old(db.State()), recordId, lead))
  {
    hide Attached, AttachedCount, BestMatch, Linked, OwnLead;
    var own := OwnLead(db.State(), recordId);
    var best := db.FindBestMatch(lead, own);
    Attach(db, stats, env, run, lead, recordId, own, best);

    if best.Some? && !best.value.result.autoMerge {
      if fault == Unreviewed {
        return true;
      }
      db.LinkRecord(best.value.id, recordId, MatchLink(best.value, true), false);
      stats.needsReview := stats.needsReview + 1;
    }
    return false;
  }

  method Attach(db: Database, stats: RunStats, env: Env, run: Run, lead: NormalizedLead,
                recordId: nat, own: Option<nat>, best: Option<Found>)
    requires own == OwnLead(db.State(), recordId) && best == BestFor(db.State(), recordId, lead)
    modifies db, stats
    ensures db.State() == Attached(old(db.State()), env, recordId, lead, run.priority)
    ensures stats.Value() == AttachedCount(old(stats.Value()), old(db.State()), recordId, lead)
  {
    hide BestMatch, MergeOf, Remerge, Create, Linked, LeadRowOf;
    var incoming := Candidate(lead, Decimal(recordId), run.priority);
    if best.Some? && best.value.result.autoMerge {
      db.RemergeLead(env, best.value.id, incoming);
      db.LinkRecord(best.value.id, recordId, MatchLink(best.value, false), true);
      stats.duplicates := stats.duplicates + 1;
    } else if own.Some? {
      db.RemergeLead(env, own.value, incoming);
      stats.duplicates := stats.duplicates + 1;
    } else {
      var merged := Merge([incoming]);
      var created := db.CreateLead(merged.value, ValidateLead(env, lead));
      db.LinkRecord(created, recordId, Link(Initial, 1.0, false), true);
      stats.newLeads := stats.newLeads + 1;
    }
  }

  method CollectItems(db: Database, env: Env, run: Run, items: seq<Item>) returns (stats: RunStats)
    modifies db
    ensures fresh(stats)
    ensures Progress(db.State(), stats.Value()) == Collected(Progress(old(db.State()), NO_COUNTS), env, run, items)
  {
    stats := new RunStats();
    for i := 0 to |items|
      invariant fresh(stats)
      invariant Progress(db.State(), stats.Value()) ==
        Collected(Progress(old(db.State()), NO_COUNTS), env, run, items[..i])
    {
      assert items[..i + 1][..i] == items[..i];
      match items[i] {
        case Rejected =>
          stats.errors := stats.errors + 1;
        case Incoming(lead, fault) =>
          var raised := Ingest(db, stats, env, run, lead, fault);
          if raised {
            stats.errors := stats.errors + 1;
          }
      }
    }
    assert items[..|items|] == items;
  }

  // ---- conservation of the counters ----

  /** Every record is accounted for, and the lead table has grown by exactly the new leads. */
  ghost predicate Conserved(start: Db, s: Progress) {
    var c := s.stats;
    c.suppressed + c.valid + c.invalid + c.unknown <= c.collected &&
    c.collected <= c.suppressed + c.duplicates + c.newLeads + c.errors &&
    (c.errors == 0 ==>
      c.suppressed + c.valid + c.invalid + c.unknown == c.collected &&
      c.collected == c.suppressed + c.duplicates + c.newLeads) &&
    c.needsReview <= c.duplicates + c.newLeads &&
    |s.db.leads.rows| == |start.leads.rows| + c.newLeads
  }

  lemma UpsertKeepsLeads(db: Db, env: Env, sourceId: nat, lead: NormalizedLead)
    ensures Upsert(db, env, sourceId, lead).leads == db.leads
  {
  }

  lemma ReviewKeepsLeads(db: Db, recordId: nat, best: Option<Found>)
    ensures Reviewed(db, recordId, best).leads == db.leads
  {
  }

  lemma RemergeShape(db: Db, env: Env, leadId: nat, incoming: Candidate)
    requires leadId in db.leads.rows
    ensures var db' := Remerge(db, env, leadId, incoming);
      db'.records == db.records && db'.links == db.links && db'.sources == db.sources &&
      db'.leads.next == db.leads.next && db'.leads.rows.Keys == db.leads.rows.Keys &&
      forall l :: l in db.leads.rows && l != leadId ==> db'.leads.rows[l] == db.leads.rows[l]
  {
    hide MergeOf, RemergeInputs, LeadRowOf;
  }

  lemma CreateShape(db: Db, merged: MergedLead, status: ValidationStatus)
    ensures var db' := Create(db, merged, status);
      db'.records == db.records && db'.links == db.links && db'.sources == db.sources &&
      db'.leads.next == db.leads.next + 1 &&
      db'.leads.rows == db.leads.rows[db.leads.next := LeadRowOf(merged, status, merged.lead.collectedAt)]
  {
    hide LeadRowOf;
  }

  lemma LinkedKeepsLeads(db: Db, leadId: nat, recordId: nat, link: Link, claim: bool)
    ensures Linked(db, leadId, recordId, link, claim).leads == db.leads
  {
  }

  /** Attaching adds a lead exactly when the record has neither a match to merge into nor a lead of its own. */
  lemma AttachLeadIds(db: Db, env: Env, recordId: nat, lead: NormalizedLead, priority: int)
    ensures var leads := Attached(db, env, recordId, lead, priority).leads;
      if MergesInto(BestFor(db, recordId, lead)) || OwnLead(db, recordId).Some?
      then leads.next == db.leads.next && leads.rows.Keys == db.leads.rows.Keys
      else leads.next == db.leads.next + 1 && leads.rows.Keys == db.leads.rows.Keys + {db.leads.next}
  {
    hide BestFor, MergeOf, LeadRowOf, Remerge, Create, Linked;
    var best, own := BestFor(db, recordId, lead), OwnLead(db, recordId);
    var incoming := Candidate(lead, Decimal(recordId), priority);
    if MergesInto(best) {
      RemergeShape(db, env, best.value.id, incoming);
      LinkedKeepsLeads(Remerge(db, env, best.value.id, incoming), best.value.id, recordId,
                       MatchLink(best.value, false), true);
    } else if own.Some? {
      RemergeShape(db, env, own.value, incoming);
    } else {
      CreateShape(db, MergeOf([incoming]), ValidateLead(env, lead));
      LinkedKeepsLeads(Create(db, MergeOf([incoming]), ValidateLead(env, lead)), db.leads.next, recordId,
                       Link(Initial, 1.0, false), true);
    }
  }

  lemma AttachGrowsLeads(db: Db, env: Env, recordId: nat, lead: NormalizedLead, priority: int, c: Counters)
    requires Numbered(db.leads)
    ensures var db' := Attached(db, env, recordId, lead, priority);
      Numbered(db'.leads) &&
      |db'.leads.rows| + c.newLeads == |db.leads.rows| + AttachedCount(c, db, recordId, lead).newLeads
  {
    hide Attached, BestFor, OwnLead, MergesInto;
    AttachLeadIds(db, env, recordId, lead, priority);
    var rows' := Attached(db, env, recordId, lead, priority).leads.rows;
    assert |rows'| == |rows'.Keys| && |db.leads.rows| == |db.leads.rows.Keys|;
    assert db.leads.next !in db.leads.rows;
  }

  /** A stored record becomes exactly one duplicate or one new lead. */
  lemma StoredConserves(s: Progress, env: Env, run: Run, id: nat, lead: NormalizedLead, fault: Fault)
    requires Numbered(s.db.leads)
    ensures var t := AfterStored(s, env, run, id, lead, fault);
      Numbered(t.db.leads) &&
      t.stats == s.stats.(duplicates := t.stats.duplicates, newLeads := t.stats.newLeads,
                          needsReview := t.stats.needsReview) &&
      t.stats.duplicates + t.stats.newLeads == s.stats.duplicates + s.stats.newLeads + 1 &&
      s.stats.needsReview <= t.stats.needsReview <= s.stats.needsReview + 1 &&
      |t.db.leads.rows| + s.stats.newLeads == |s.db.leads.rows| + t.stats.newLeads
  {
    hide Attached, BestFor, Reviewed, OwnLead, MergesInto, AwaitsReview;
    AttachGrowsLeads(s.db, env, id, lead, run.priority, s.stats);
    ReviewKeepsLeads(Attached(s.db, env, id, lead, run.priority), id, BestFor(s.db, id, lead));
  }

  lemma ItemConserves(start: Db, s: Progress, env: Env, run: Run, item: Item)
    requires Numbered(s.db.leads) && Conserved(start, s)
    ensures Numbered(AfterItem(s, env, run, item).db.leads)
    ensures Conserved(start, AfterItem(s, env, run, item))
  {
    hide Upsert, UpsertId, AfterStored, BestFor, Blocks, AwaitsReview;
    if item.Incoming? && item.fault != Unreadable && Blocks(run.blocked, item.lead).None? {
      UpsertKeepsLeads(s.db, env, run.sourceId, item.lead);
      var stored := Progress(Upsert(s.db, env, run.sourceId, item.lead),
                             Graded(s.stats.(collected := s.stats.collected + 1), ValidateLead(env, item.lead)));
      StoredConserves(stored, env, run, UpsertId(s.db, env, run.sourceId, item.lead), item.lead, item.fault);
    }
  }

  /** Holds after every prefix of a run, since a prefix is itself a list of items. */
  lemma {:induction false} RunConservesRecords(start: Db, env: Env, run: Run, items: seq<Item>)
    requires Numbered(start.leads)
    ensures Numbered(Collected(Progress(start, NO_COUNTS), env, run, items).db.leads)
    ensures Conserved(start, Collected(Progress(start, NO_COUNTS), env, run, items))
  {
    if items != [] {
      RunConservesRecords(start, env, run, items[..|items| - 1]);
      ItemConserves(start, Collected(Progress(start, NO_COUNTS), env, run, items[..|items| - 1]), env, run,
                    items[|items| - 1]);
    }
  }
}
