/** Why a record belongs to a lead, over every history of the store. */
module Ownership {
  import opened Text
  import opened Domain
  import opened Fingerprint
  import opened Matching
  import opened Merging
  import opened Tables
  import opened Store
  import opened Lookup
  import opened Pipeline

  /** One committed change of the store; events of different runs may interleave item by item. */
  datatype Event =
    | Process(run: Run, item: Item)
    | Erase(leadId: nat)
    | Configure(sourceId: nat, source: Source)

  function ItemDb(db: Db, env: Env, run: Run, item: Item): Db {
    AfterItem(Progress(db, NO_COUNTS), env, run, item).db
  }

  function Exec1(db: Db, env: Env, event: Event): Db {
    match event
    case Process(run, item) => ItemDb(db, env, run, item)
    case Erase(leadId) => Deleted(db, leadId)
    case Configure(sourceId, source) => db.(sources := db.sources[sourceId := source])
  }

  function Exec(db: Db, env: Env, history: seq<Event>): Db {
    if history == [] then db
    else Exec1(Exec(db, env, history[..|history| - 1]), env, history[|history| - 1])
  }

  const EMPTY_STORE := Db(map[], Empty(), Empty(), map[])

  /** A link strong enough to own by: the record started the lead, or an exact key put it there. */
  predicate Solid(link: Link) {
    !link.needsReview &&
    (link.rule == Initial ||
     (link.rule != Matched(ByNameLocation) && link.rule != Matched(ByExternalId) &&
      link.confidence >= AUTO_MERGE_THRESHOLD))
  }

  ghost predicate OwnersHoldSolidLinks(db: Db) {
    forall id :: id in db.records.rows && db.records.rows[id].lead.Some? ==>
      var owner := db.records.rows[id].lead.value;
      owner in db.leads.rows && (owner, id) in db.links && Solid(db.links[(owner, id)])
  }

  ghost predicate LinksResolve(db: Db) {
    forall p :: p in db.links ==>
      p.0 in db.leads.rows && p.1 in db.records.rows && db.records.rows[p.1].lead.Some?
  }

  ghost predicate KeysUnique(records: Table<Record>) {
    forall i, j | i in records.rows && j in records.rows ::
      records.rows[i].sourceId == records.rows[j].sourceId && records.rows[i].key == records.rows[j].key ==> i == j
  }

  ghost predicate Consistent(db: Db) {
    Numbered(db.records) && LeadsKeyed(db.leads) && KeysUnique(db.records) &&
    LinksResolve(db) && OwnersHoldSolidLinks(db)
  }

  // ---- each operation keeps the invariant ----

  lemma ByKeyFinds(records: Table<Record>, sourceId: nat, key: string)
    requires Numbered(records)
    ensures var found := ByKey(records, sourceId, key);
      if found.Some? then
        found.value in records.rows && records.rows[found.value].sourceId == sourceId &&
          records.rows[found.value].key == key
      else forall id :: id in records.rows ==> !(records.rows[id].sourceId == sourceId && records.rows[id].key == key)
  {
    var where := (id: nat, r: Record) => r.sourceId == sourceId && r.key == key;
    IdsAscend(records.rows, where, 1, records.next);
    var ids := Ids(records.rows, where, 1, records.next);
    if ids != [] {
      assert ids[0] in ids;
    } else {
      forall id | id in records.rows ensures !(records.rows[id].sourceId == sourceId && records.rows[id].key == key) {
        assert id !in ids;
      }
    }
  }

  lemma UpsertKeepsConsistent(db: Db, env: Env, sourceId: nat, lead: NormalizedLead)
    requires Consistent(db)
    ensures var db', id := Upsert(db, env, sourceId, lead), UpsertId(db, env, sourceId, lead);
      Consistent(db') && id in db'.records.rows && db'.leads == db.leads && db'.links == db.links &&
      db'.records.rows[id] == RecordRow(env, sourceId, lead, Owner(db, id))
  {
    hide CompanySlug, LocationKey, FingerprintsOf, Keyed, ByKey, Solid;
    ByKeyFinds(db.records, sourceId, RecordKey(env, lead));
  }

  lemma RemergeKeepsConsistent(db: Db, env: Env, leadId: nat, incoming: Candidate)
    requires Consistent(db) && leadId in db.leads.rows
    ensures Consistent(Remerge(db, env, leadId, incoming))
  {
    hide CompanySlug, LocationKey, MergeOf, RemergeInputs, Solid;
    var db' := Remerge(db, env, leadId, incoming);
    assert db'.leads.rows.Keys == db.leads.rows.Keys;
  }

  lemma CreateKeepsConsistent(db: Db, merged: MergedLead, status: ValidationStatus)
    requires Consistent(db)
    ensures Consistent(Create(db, merged, status))
    ensures db.leads.next in Create(db, merged, status).leads.rows
    ensures forall id :: (db.leads.next, id) !in db.links
  {
    hide CompanySlug, LocationKey, Solid;
  }

  /** Claiming with a solid link is always safe, and leaves the record owned. */
  lemma ClaimKeepsConsistent(db: Db, leadId: nat, recordId: nat, link: Link)
    requires Consistent(db) && leadId in db.leads.rows && recordId in db.records.rows && Solid(link)
    ensures var db' := Linked(db, leadId, recordId, link, true);
      Consistent(db') && recordId in db'.records.rows && db'.records.rows[recordId].lead.Some? &&
      ((leadId, recordId) !in db.links ==> db'.records.rows[recordId].lead == Some(leadId)) &&
      ((leadId, recordId) in db.links ==> db'.records == db.records)
  {
    hide Keyed, Solid;
  }

  /** Any link that does not claim is safe as long as it is not the owner's own. */
  lemma NoteKeepsConsistent(db: Db, leadId: nat, recordId: nat, link: Link)
    requires Consistent(db) && leadId in db.leads.rows && recordId in db.records.rows
    requires db.records.rows[recordId].lead.Some? && db.records.rows[recordId].lead != Some(leadId)
    ensures Consistent(Linked(db, leadId, recordId, link, false))
  {
    hide Keyed, Solid;
  }

  lemma DeleteKeepsConsistent(db: Db, leadId: nat)
    requires Consistent(db)
    ensures Consistent(Deleted(db, leadId))
  {
    hide Keyed, Solid;
  }

  /** Deleting a lead leaves nothing of it behind and nothing else changed. */
  lemma DeleteErasesExactlyTheLead(db: Db, leadId: nat)
    requires Consistent(db)
    ensures var db' := Deleted(db, leadId);
      leadId !in db'.leads.rows &&
      (forall l :: l in db.leads.rows && l != leadId ==>
        l in db'.leads.rows && db'.leads.rows[l] == db.leads.rows[l]) &&
      (forall id :: id in db'.records.rows <==> id in db.records.rows && db.records.rows[id].lead != Some(leadId)) &&
      (forall id :: id in db'.records.rows ==> db'.records.rows[id] == db.records.rows[id]) &&
      (forall l, id :: (l, id) in db'.links ==> l in db'.leads.rows && id in db'.records.rows) &&
      (forall l, id :: (l, id) in db.links && l in db'.leads.rows && id in db'.records.rows ==>
        (l, id) in db'.links && db'.links[(l, id)] == db.links[(l, id)])
  {
    hide Keyed, Solid;
  }

  /** Stored leads carry no external id, so a stored match merges exactly when an exact key is shared. */
  lemma StoredMatchIsSolid(leads: Table<LeadRow>, lead: NormalizedLead, best: Found)
    requires MatchStored(leads, lead, best.id) == Some(best.result)
    ensures best.result.autoMerge ==> Solid(MatchLink(best, false))
    ensures best.result.rule != ByExternalId
  {
    hide CompanySlug, Similarity;
    NameAloneNeverMerges(lead, AsNormalized(leads.rows[best.id], lead));
    assert AsNormalized(leads.rows[best.id], lead).ExternalId() == None;
  }

  lemma AttachKeepsConsistent(db: Db, env: Env, id: nat, lead: NormalizedLead, priority: int)
    requires Consistent(db) && id in db.records.rows
    ensures var db', best := Attached(db, env, id, lead, priority), BestFor(db, id, lead);
      Consistent(db') && id in db'.records.rows && db'.records.rows[id].lead.Some? &&
      (best.Some? ==> best.value.id in db'.leads.rows) &&
      (AwaitsReview(best) ==> db'.records.rows[id].lead != Some(best.value.id))
  {
    hide Consistent, Solid, Keyed, MergeOf, RemergeInputs, LeadRowOf, BestFor, Linked, Create, Remerge;
    var best, own := BestFor(db, id, lead), OwnLead(db, id);
    var incoming := Candidate(lead, OriginKeys.Decimal(id), priority);
    assert db.records.rows[id].lead.Some? ==> own == db.records.rows[id].lead by { OwnersExist(db); }
    if MergesInto(best) {
      RemergeShape(db, env, best.value.id, incoming);
      RemergeKeepsConsistent(db, env, best.value.id, incoming);
      StoredMatchIsSolid(db.leads, lead, best.value);
      ClaimKeepsConsistent(Remerge(db, env, best.value.id, incoming), best.value.id, id, MatchLink(best.value, false));
      LinkedKeepsLeads(Remerge(db, env, best.value.id, incoming), best.value.id, id, MatchLink(best.value, false),
                       true);
    } else if own.Some? {
      RemergeShape(db, env, own.value, incoming);
      RemergeKeepsConsistent(db, env, own.value, incoming);
    } else {
      var db1 := Create(db, MergeOf([incoming]), ValidateLead(env, lead));
      CreateShape(db, MergeOf([incoming]), ValidateLead(env, lead));
      CreateKeepsConsistent(db, MergeOf([incoming]), ValidateLead(env, lead));
      assert Solid(Link(Initial, 1.0, false)) by { SolidInitial(); }
      ClaimKeepsConsistent(db1, db.leads.next, id, Link(Initial, 1.0, false));
      LinkedKeepsLeads(db1, db.leads.next, id, Link(Initial, 1.0, false), true);
      if best.Some? {
        assert best.value.id != db.leads.next by { NextIsFresh(db); }
      }
    }
  }

  lemma SolidInitial()
    ensures Solid(Link(Initial, 1.0, false))
  {
  }

  lemma NextIsFresh(db: Db)
    requires Consistent(db)
    ensures db.leads.next !in db.leads.rows && db.records.next !in db.records.rows
  {
  }

  lemma OwnersExist(db: Db)
    requires Consistent(db)
    ensures forall id :: id in db.records.rows && db.records.rows[id].lead.Some? ==>
      db.records.rows[id].lead.value in db.leads.rows
  {
    hide Solid, Keyed;
  }

  lemma ReviewKeepsConsistent(db: Db, id: nat, best: Option<Found>)
    requires Consistent(db) && id in db.records.rows && db.records.rows[id].lead.Some?
    requires AwaitsReview(best) ==> best.value.id in db.leads.rows && db.records.rows[id].lead != Some(best.value.id)
    ensures Consistent(Reviewed(db, id, best)) && Reviewed(db, id, best).records == db.records
  {
    hide Consistent;
    if AwaitsReview(best) {
      NoteKeepsConsistent(db, best.value.id, id, MatchLink(best.value, true));
    }
  }

  /** Past the upsert every record of the event ends up owned. */
  lemma StoredKeepsConsistent(s: Progress, env: Env, run: Run, id: nat, lead: NormalizedLead, fault: Fault)
    requires Consistent(s.db) && id in s.db.records.rows
    ensures var db' := AfterStored(s, env, run, id, lead, fault).db;
      Consistent(db') && id in db'.records.rows && db'.records.rows[id].lead.Some?
  {
    hide Consistent, Attached, BestFor, Reviewed, AttachedCount;
    AttachKeepsConsistent(s.db, env, id, lead, run.priority);
    ReviewKeepsConsistent(Attached(s.db, env, id, lead, run.priority), id, BestFor(s.db, id, lead));
  }

  lemma ItemKeepsConsistent(db: Db, env: Env, run: Run, item: Item)
    requires Consistent(db)
    ensures Consistent(ItemDb(db, env, run, item))
  {
    hide Consistent, AfterStored, Upsert, UpsertId, Suppressions.Blocks, Raises, Graded;
    if item.Incoming? {
      UpsertKeepsConsistent(db, env, run.sourceId, item.lead);
      var c := NO_COUNTS.(collected := 1);
      StoredKeepsConsistent(Progress(Upsert(db, env, run.sourceId, item.lead), Graded(c, ValidateLead(env, item.lead))),
                       env, run, UpsertId(db, env, run.sourceId, item.lead), item.lead, item.fault);
    }
  }

  lemma EventKeepsConsistent(db: Db, env: Env, event: Event)
    requires Consistent(db)
    ensures Consistent(Exec1(db, env, event))
  {
    match event
    case Process(run, item) => ItemKeepsConsistent(db, env, run, item);
    case Erase(leadId) => DeleteKeepsConsistent(db, leadId);
    case Configure(_, _) =>
  }

  lemma {:induction false} HistoryKeepsConsistent(db: Db, env: Env, history: seq<Event>)
    requires Consistent(db)
    ensures Consistent(Exec(db, env, history))
  {
    hide Consistent, Exec1;
    if history != [] {
      HistoryKeepsConsistent(db, env, history[..|history| - 1]);
      EventKeepsConsistent(Exec(db, env, history[..|history| - 1]), env, history[|history| - 1]);
    }
  }

  /**
   * In every reachable store, a record owned by a lead has a settled link to it, made either because the
   * record started the lead or because they share an email, domain or phone. Name similarity never owns.
   */
  lemma {:induction false} OwnershipNeedsAnExactKey(env: Env, history: seq<Event>, id: nat)
    requires id in Exec(EMPTY_STORE, env, history).records.rows
    requires Exec(EMPTY_STORE, env, history).records.rows[id].lead.Some?
    ensures var db := Exec(EMPTY_STORE, env, history);
      var owner := db.records.rows[id].lead.value;
      owner in db.leads.rows && (owner, id) in db.links &&
      var link := db.links[(owner, id)];
      !link.needsReview &&
      (link.rule == Initial ||
       (link.rule in {Matched(ByEmail), Matched(ByWebsite), Matched(ByPhone)} && link.confidence >= 0.85))
  {
    hide Exec, Keyed;
    assert Consistent(EMPTY_STORE);
    HistoryKeepsConsistent(EMPTY_STORE, env, history);
    var db := Exec(EMPTY_STORE, env, history);
    var link := db.links[(db.records.rows[id].lead.value, id)];
    assert Solid(link);
    match link.rule {
      case Initial =>
      case Matched(rule) => assert rule == ByEmail || rule == ByWebsite || rule == ByPhone;
    }
  }
}
