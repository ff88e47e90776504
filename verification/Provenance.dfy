/** What an ingest records besides the merge: its links, the stored record, and when a lead was first seen. */
module Provenance {
  import opened Text
  import opened Domain
  import opened Fingerprint
  import opened Matching
  import opened Merging
  import opened Tables
  import opened Store
  import opened Pipeline
  import opened Ownership
  import opened Derivation
  import Erasure

  // ---- links ----

  /** A link says how its record came to the lead, as surely as that rule allows; only a name awaits review. */
  predicate LinkTells(link: Link) {
    match link.rule
    case Initial => link.confidence == 1.0 && !link.needsReview
    case Matched(ByEmail) => link.confidence == 1.0 && !link.needsReview
    case Matched(ByWebsite) => link.confidence == 0.95 && !link.needsReview
    case Matched(ByPhone) => link.confidence == 0.9 && !link.needsReview
    case Matched(ByNameLocation) => 0.7 <= link.confidence <= 0.8 && link.needsReview
    case Matched(ByExternalId) => false
  }

  ghost predicate LinksTell(db: Db) {
    forall p :: p in db.links ==> LinkTells(db.links[p])
  }

  /** What a match found in the store is worth. */
  lemma StoredMatchTells(leads: Table<LeadRow>, lead: NormalizedLead, best: Found)
    requires MatchStored(leads, lead, best.id) == Some(best.result)
    ensures LinkTells(Link(Matched(best.result.rule), best.result.confidence, !best.result.autoMerge))
  {
    hide FingerprintsOf, Similarity, Match;
    var stored := AsNormalized(leads.rows[best.id], lead);
    FirstRuleIsStrongestUnlessIdentifierShared(lead, stored);
    NameAloneNeverMerges(lead, stored);
    StoredMatchIsSolid(leads, lead, best);
  }

  /** The links of one stored item, written out; `linked` are those made while attaching it. */
  function LinksAfter(links: map<(nat, nat), Link>, id: nat, best: Option<Found>, own: Option<nat>,
                      next: nat): map<(nat, nat), Link>
  {
    if best.Some? && best.value.result.autoMerge then
      links[(best.value.id, id) := Link(Matched(best.value.result.rule), best.value.result.confidence, false)]
    else
      var linked := if own.None? then links[(next, id) := Link(Initial, 1.0, false)] else links;
      if best.None? then linked
      else linked[(best.value.id, id) := Link(Matched(best.value.result.rule), best.value.result.confidence, true)]
  }

  lemma AttachedLinks(db: Db, env: Env, id: nat, lead: NormalizedLead, priority: int)
    ensures var best, own := BestFor(db, id, lead), OwnLead(db, id);
      Attached(db, env, id, lead, priority).links ==
      if best.Some? && best.value.result.autoMerge then
        db.links[(best.value.id, id) := Link(Matched(best.value.result.rule), best.value.result.confidence, false)]
      else if own.None? then db.links[(db.leads.next, id) := Link(Initial, 1.0, false)]
      else db.links
  {
    hide MergeOf, LeadRowOf, BestFor, RemergeInputs, ValidateLead;
  }

  /** After a stored item exactly these links are new or rewritten. */
  lemma ItemLinks(db: Db, env: Env, run: Run, item: Item)
    requires item.Incoming? && !Dropped(run, item) && item.fault == NoFault
    ensures var db1, id := Upsert(db, env, run.sourceId, item.lead), UpsertId(db, env, run.sourceId, item.lead);
      ItemDb(db, env, run, item).links ==
        LinksAfter(db.links, id, BestFor(db1, id, item.lead), OwnLead(db1, id), db.leads.next)
  {
    hide Upsert, UpsertId, Attached, AttachedCount, BestFor, Suppressions.Blocks, Raises, Graded, OwnLead;
    var db1, id := Upsert(db, env, run.sourceId, item.lead), UpsertId(db, env, run.sourceId, item.lead);
    AttachedLinks(db1, env, id, item.lead, run.priority);
    UpsertKeepsLinks(db, env, run.sourceId, item.lead);
  }

  lemma UpsertKeepsLinks(db: Db, env: Env, sourceId: nat, lead: NormalizedLead)
    ensures Upsert(db, env, sourceId, lead).links == db.links && Upsert(db, env, sourceId, lead).leads == db.leads
  {
  }

  /**
   * When the best match of a stored record is not to be merged automatically, the record is linked to it for
   * review, with that match's rule and confidence, and belongs to another lead.
   */
  lemma WeakMatchAwaitsReview(db: Db, env: Env, run: Run, item: Item)
    requires Consistent(db) && item.Incoming? && !Dropped(run, item) && item.fault == NoFault
    requires var db1, id := Upsert(db, env, run.sourceId, item.lead), UpsertId(db, env, run.sourceId, item.lead);
      BestFor(db1, id, item.lead).Some? && !BestFor(db1, id, item.lead).value.result.autoMerge
    ensures var db1, id := Upsert(db, env, run.sourceId, item.lead), UpsertId(db, env, run.sourceId, item.lead);
      var best, db' := BestFor(db1, id, item.lead).value, ItemDb(db, env, run, item);
      (best.id, id) in db'.links && db'.links[(best.id, id)].needsReview &&
      db'.links[(best.id, id)].rule == Matched(best.result.rule) &&
      db'.links[(best.id, id)].confidence == best.result.confidence &&
      Owner(db', id).Some? && Owner(db', id) != Some(best.id)
  {
    hide Upsert, UpsertId, Attached, BestFor, ItemDb, Dropped, Consistent, OwnLead;
    var db1, id := Upsert(db, env, run.sourceId, item.lead), UpsertId(db, env, run.sourceId, item.lead);
    ItemLinks(db, env, run, item);
    UpsertKeepsConsistent(db, env, run.sourceId, item.lead);
    AttachKeepsConsistent(db1, env, id, item.lead, run.priority);
    StoredItemRows(db, env, run, item);
  }

  lemma ItemLinksTell(db: Db, env: Env, run: Run, item: Item)
    requires LinksTell(db)
    ensures LinksTell(ItemDb(db, env, run, item))
  {
    hide Upsert, UpsertId, BestFor, Dropped, LinkTells, Attached, ItemDb, OwnLead;
    if item.Incoming? && !Dropped(run, item) && item.fault != Unlinked {
      var db1, id := Upsert(db, env, run.sourceId, item.lead), UpsertId(db, env, run.sourceId, item.lead);
      UpsertKeepsLinks(db, env, run.sourceId, item.lead);
      var best := BestFor(db1, id, item.lead);
      if best.Some? {
        StoredMatchTells(db1.leads, item.lead, best.value);
      }
      InitialTells();
      FiledFault(run, item);
      if item.fault == NoFault {
        ItemLinks(db, env, run, item);
      } else {
        UnreviewedLinks(db, env, run, item);
        AttachedLinks(db1, env, id, item.lead, run.priority);
      }
    } else {
      UnattachedKeepsLinks(db, env, run, item);
    }
  }

  lemma FiledFault(run: Run, item: Item)
    requires item.Incoming? && !Dropped(run, item) && item.fault != Unlinked
    ensures item.fault == NoFault || item.fault == Unreviewed
  {
  }

  lemma UnreviewedLinks(db: Db, env: Env, run: Run, item: Item)
    requires item.Incoming? && !Dropped(run, item) && item.fault == Unreviewed
    ensures var db1, id := Upsert(db, env, run.sourceId, item.lead), UpsertId(db, env, run.sourceId, item.lead);
      ItemDb(db, env, run, item).links == Attached(db1, env, id, item.lead, run.priority).links
  {
    hide Upsert, UpsertId, Attached, AttachedCount, BestFor, Suppressions.Blocks, Raises, Graded, AwaitsReview;
  }

  lemma InitialTells()
    ensures LinkTells(Link(Initial, 1.0, false))
  {
  }

  lemma UnattachedKeepsLinks(db: Db, env: Env, run: Run, item: Item)
    requires item.Incoming? ==> Dropped(run, item) || item.fault == Unlinked
    ensures ItemDb(db, env, run, item).links == db.links
  {
    hide UpsertId, AfterStored, Suppressions.Blocks, Raises, Graded, RecordRow, ByKey;
  }

  /**
   * In every reachable store a link needs review exactly when it was made by name, and its confidence is that of
   * its rule.
   */
  lemma {:induction false} LinksTellTheirRule(env: Env, history: seq<Event>)
    ensures LinksTell(Exec(EMPTY_STORE, env, history))
    ensures var links := Exec(EMPTY_STORE, env, history).links;
      forall p :: p in links ==> (links[p].needsReview <==> links[p].rule == Matched(ByNameLocation))
  {
    hide ItemDb;
    if history != [] {
      var init, last := history[..|history| - 1], history[|history| - 1];
      LinksTellTheirRule(env, init);
      if last.Process? {
        ItemLinksTell(Exec(EMPTY_STORE, env, init), env, last.run, last.item);
      }
    }
  }

  // ---- the stored record ----

  /** The grade of a lead: a name and one well-formed contact at least, and no malformed one. */
  lemma GradedExactly(env: Env, lead: NormalizedLead)
    ensures var email, website, phone := lead.Get(Email), lead.Get(Website), lead.Get(Phone);
      var malformed := (email.Some? && !env.emailOk(email.value)) || (website.Some? && !env.urlOk(website.value)) ||
        (phone.Some? && !env.phoneOk(phone.value));
      (ValidateLead(env, lead) == Invalid <==> lead.Get(CompanyName) == None || malformed) &&
      (ValidateLead(env, lead) == Unknown <==>
        lead.Get(CompanyName).Some? && email == None && website == None && phone == None) &&
      (ValidateLead(env, lead) == Valid <==>
        lead.Get(CompanyName).Some? && !malformed && (email.Some? || website.Some? || phone.Some?))
  {
  }

  /**
   * A written row, column by column and key by key: each value is that of one of the lead's records that no other
   * with a value there outranks, a value is missing only if all lack it, and the row is graded by what it shows.
   */
  lemma WrittenRowShowsTheBest(db: Db, env: Env, leadId: nat, inputs: seq<Candidate>, f: Field, k: string)
    requires Wrote(db, env, leadId, inputs) && f != WebsiteDomain
    ensures var row := db.leads.rows[leadId];
      if f in row.values then
        exists c :: c in inputs && c.lead.Get(f) == Some(row.values[f]) &&
          (f == Website ==> c.lead.Get(WebsiteDomain) == ColumnOf(row, WebsiteDomain)) &&
          forall d :: d in inputs && f in d.lead.payload.values ==> Outranks(c, d)
      else forall d :: d in inputs ==> f !in d.lead.payload.values
    ensures var row := db.leads.rows[leadId];
      if k in row.extra then
        exists c :: c in inputs && k in c.lead.payload.extra && c.lead.payload.extra[k] == row.extra[k] &&
          forall d :: d in inputs && k in d.lead.payload.extra ==> Outranks(c, d)
      else forall d :: d in inputs ==> k !in d.lead.payload.extra
    ensures var row := db.leads.rows[leadId];
      var email, website, phone := ColumnOf(row, Email), ColumnOf(row, Website), ColumnOf(row, Phone);
      var malformed := (email.Some? && !env.emailOk(email.value)) || (website.Some? && !env.urlOk(website.value)) ||
        (phone.Some? && !env.phoneOk(phone.value));
      row.status ==
        if ColumnOf(row, CompanyName) == None || malformed then Invalid
        else if email == None && website == None && phone == None then Unknown
        else Valid
  {
    hide MergeOf, Outranks, ValidateLead, CompanySlug, LocationKey;
    var m := MergeOf(inputs);
    ColumnsComeFromTheBest(inputs, f);
    ExtrasComeFromTheBest(inputs, k);
    GradedExactly(env, m.lead);
    var row := db.leads.rows[leadId];
    assert row.values == m.lead.payload.values && row.extra == m.lead.payload.extra;
    if f in row.values {
      var c :| c in inputs && f in c.lead.payload.values && m.lead.payload.values[f] == c.lead.payload.values[f] &&
        m.origins[f] == c.origin && (f == Website ==> m.lead.Get(WebsiteDomain) == c.lead.Get(WebsiteDomain)) &&
        forall d :: d in inputs && f in d.lead.payload.values ==> Outranks(c, d);
      assert c.lead.Get(f) == Some(row.values[f]);
    }
  }

  /** A stored item's record shows all of the item, graded and fingerprinted as it came. */
  lemma StoredRecordShowsItem(db: Db, env: Env, run: Run, item: Item)
    requires Consistent(db) && item.Incoming? && !Dropped(run, item)
    ensures var id, db' := UpsertId(db, env, run.sourceId, item.lead), ItemDb(db, env, run, item);
      id in db'.records.rows &&
      var r := db'.records.rows[id];
      r.sourceId == run.sourceId && r.normalized == item.lead.payload && r.externalId == item.lead.ExternalId() &&
      r.sourceUrl == item.lead.source.url && r.collectedAt == item.lead.collectedAt &&
      r.status == ValidateLead(env, item.lead) && r.fp == FingerprintsOf(item.lead) &&
      (item.lead.ExternalId().Some? && item.lead.ExternalId().value != "" ==> r.key == item.lead.ExternalId().value) &&
      (item.lead.ExternalId() == None || item.lead.ExternalId() == Some("") ==> r.key == env.digest(item.lead.payload))
  {
    hide Upsert, UpsertId, AfterStored, Suppressions.Blocks, Raises, Graded, FingerprintsOf, ValidateLead, Consistent;
    UpsertKeepsConsistent(db, env, run.sourceId, item.lead);
    var db1, id := Upsert(db, env, run.sourceId, item.lead), UpsertId(db, env, run.sourceId, item.lead);
    var stored := Progress(db1, Graded(NO_COUNTS.(collected := 1), ValidateLead(env, item.lead)));
    Erasure.StoredChangesOwner(stored, env, run, id, item.lead, item.fault);
  }

  /** Under which record a sighting is filed: the one of its source with its identifier, or with its content. */
  lemma FiledUnderItsIdentity(db: Db, env: Env, run: Run, item: Item, id: nat)
    requires Consistent(db) && id in db.records.rows
    ensures var external := if item.Incoming? then item.lead.ExternalId() else None;
      item.Incoming? ==>
        (UpsertId(db, env, run.sourceId, item.lead) == id <==>
          db.records.rows[id].sourceId == run.sourceId &&
          db.records.rows[id].key ==
            if external.Some? && external.value != "" then external.value else env.digest(item.lead.payload))
  {
    hide ByKey, Solid, Keyed;
    if item.Incoming? {
      ByKeyFinds(db.records, run.sourceId, RecordKey(env, item.lead));
      NextIsFresh(db);
    }
  }

  // ---- when a lead was first seen ----

  /** Ids are not used again, and a lead keeps the time it was first seen. */
  ghost predicate KeepsFirstSeen(db: Db, db': Db) {
    db'.leads.next >= db.leads.next &&
    forall l :: l in db'.leads.rows && l < db.leads.next ==>
      l in db.leads.rows && db'.leads.rows[l].firstSeen == db.leads.rows[l].firstSeen
  }

  lemma AloneIsLatest(c: Candidate)
    ensures MergeOf([c]).lead.collectedAt == c.lead.collectedAt
  {
  }

  lemma RemergeKeepsFirstSeen(db: Db, env: Env, leadId: nat, incoming: Candidate)
    requires leadId in db.leads.rows
    ensures KeepsFirstSeen(db, Remerge(db, env, leadId, incoming))
    ensures Remerge(db, env, leadId, incoming).leads.rows.Keys == db.leads.rows.Keys
  {
    hide MergeOf, RemergeInputs, ValidateLead, CompanySlug, LocationKey;
  }

  lemma CreateFirstSeen(db: Db, merged: MergedLead, status: ValidationStatus)
    ensures var db' := Create(db, merged, status);
      KeepsFirstSeen(db, db') && db.leads.next in db'.leads.rows &&
      db'.leads.rows[db.leads.next].firstSeen == merged.lead.collectedAt == db'.leads.rows[db.leads.next].lastSeen &&
      forall l :: l in db'.leads.rows ==> l == db.leads.next || l in db.leads.rows
  {
    hide CompanySlug, LocationKey;
  }

  /** What attaching a record adds to the leads was first and last seen with it. */
  lemma AttachFirstSeen(db: Db, env: Env, id: nat, lead: NormalizedLead, priority: int)
    ensures var db' := Attached(db, env, id, lead, priority);
      KeepsFirstSeen(db, db') &&
      forall l :: l in db'.leads.rows && l !in db.leads.rows ==>
        db'.leads.rows[l].firstSeen == lead.collectedAt == db'.leads.rows[l].lastSeen
  {
    hide MergeOf, BestFor, RemergeInputs, ValidateLead, Linked, LeadRowOf, Remerge, Create, KeepsFirstSeen;
    var best, own := BestFor(db, id, lead), OwnLead(db, id);
    var incoming := Candidate(lead, OriginKeys.Decimal(id), priority);
    AloneIsLatest(incoming);
    if MergesInto(best) {
      var db1 := Remerge(db, env, best.value.id, incoming);
      RemergeKeepsFirstSeen(db, env, best.value.id, incoming);
      LinkedKeepsLeads(db1, best.value.id, id, MatchLink(best.value, false), true);
      SameLeadsSameSeen(db, db1, Attached(db, env, id, lead, priority));
    } else if own.Some? {
      RemergeKeepsFirstSeen(db, env, own.value, incoming);
    } else {
      var db1 := Create(db, MergeOf([incoming]), ValidateLead(env, lead));
      CreateFirstSeen(db, MergeOf([incoming]), ValidateLead(env, lead));
      LinkedKeepsLeads(db1, db.leads.next, id, Link(Initial, 1.0, false), true);
      SameLeadsSameSeen(db, db1, Attached(db, env, id, lead, priority));
    }
  }

  lemma SameLeadsSameSeen(db: Db, db1: Db, db2: Db)
    requires db2.leads == db1.leads
    ensures KeepsFirstSeen(db, db1) <==> KeepsFirstSeen(db, db2)
    ensures KeepsFirstSeen(db1, db) <==> KeepsFirstSeen(db2, db)
  {
  }

  lemma SameSeen(db: Db, db': Db)
    requires db'.leads == db.leads
    ensures KeepsFirstSeen(db, db')
  {
  }

  /** A new lead was first and last seen with the item that starts it; no later item changes when it was first seen. */
  lemma ItemKeepsFirstSeen(db: Db, env: Env, run: Run, item: Item)
    ensures KeepsFirstSeen(db, ItemDb(db, env, run, item))
    ensures var leads := ItemDb(db, env, run, item).leads.rows;
      item.Incoming? ==> forall l :: l in leads && l !in db.leads.rows ==>
        leads[l].firstSeen == item.lead.collectedAt == leads[l].lastSeen
  {
    hide Upsert, UpsertId, Attached, ItemDb, Dropped, KeepsFirstSeen;
    SameSeen(db, db);
    if item.Rejected? {
      RejectedChangesNothing(db, env, run);
    } else if Dropped(run, item) {
      DroppedChangesNothing(db, env, run, item);
    } else {
      UpsertKeepsLinks(db, env, run.sourceId, item.lead);
      var db1, id := Upsert(db, env, run.sourceId, item.lead), UpsertId(db, env, run.sourceId, item.lead);
      SameSeen(db, db1);
      if item.fault == Unlinked {
        UnlinkedItemStoresOnly(db, env, run, item);
      } else {
        var db2 := Attached(db1, env, id, item.lead, run.priority);
        AttachFirstSeen(db1, env, id, item.lead, run.priority);
        StoredItemRows(db, env, run, item);
        SameLeadsSameSeen(db2, db1, db);
        SameLeadsSameSeen(db1, db2, ItemDb(db, env, run, item));
        FirstSeenFrom(db, db1, ItemDb(db, env, run, item));
      }
    }
  }

  lemma FirstSeenFrom(db: Db, db1: Db, db': Db)
    requires db1.leads == db.leads && KeepsFirstSeen(db1, db')
    ensures KeepsFirstSeen(db, db')
  {
  }

  lemma EventKeepsFirstSeen(db: Db, env: Env, event: Event)
    ensures KeepsFirstSeen(db, Exec1(db, env, event))
  {
    hide ItemDb;
    match event
    case Process(run, item) => ItemKeepsFirstSeen(db, env, run, item);
    case Erase(leadId) =>
    case Configure(_, _) =>
  }

  lemma KeepsFirstSeenTransitive(a: Db, b: Db, c: Db)
    requires KeepsFirstSeen(a, b) && KeepsFirstSeen(b, c)
    ensures KeepsFirstSeen(a, c)
  {
  }

  /** Over every history a lead that is still there was first seen when it always was, and no id comes back. */
  lemma {:induction false} HistoryKeepsFirstSeen(db: Db, env: Env, history: seq<Event>)
    ensures KeepsFirstSeen(db, Exec(db, env, history))
  {
    hide Exec1, KeepsFirstSeen;
    if history == [] {
      SameSeen(db, db);
    } else {
      var mid := Exec(db, env, history[..|history| - 1]);
      HistoryKeepsFirstSeen(db, env, history[..|history| - 1]);
      EventKeepsFirstSeen(mid, env, history[|history| - 1]);
      KeepsFirstSeenTransitive(db, mid, Exec(db, env, history));
    }
  }
}
