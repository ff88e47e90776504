/** Erasing a lead keeps its contacts out of every later collection (app/api/routes.py, delete_lead). */
module Erasure {
  import opened Text
  import opened Domain
  import opened Emails
  import opened Tables
  import opened Store
  import opened Suppressions
  import opened Pipeline

  datatype Site = Site(db: Db, suppressions: Table<Entry>)

  datatype Action =
    | Collect(sourceId: nat, priority: int, items: seq<Item>)
    | DeleteLead(leadId: nat, suppress: bool)
    | AddSuppression(kind: Kind, value: string)
    | RemoveSuppression(id: nat)

  function SuppressedFor(site: Site, domainOf: string -> Option<string>, leadId: nat): Table<Entry>
    requires leadId in site.db.leads.rows
  {
    var row := site.db.leads.rows[leadId];
    AddedForLead(site.suppressions, domainOf, ColumnOf(row, Email), ColumnOf(row, WebsiteDomain))
  }

  /** A run loads the suppression list once, when it starts. */
  function Act(site: Site, env: Env, domainOf: string -> Option<string>, action: Action): Site {
    match action
    case Collect(sourceId, priority, items) =>
      var run := Run(sourceId, priority, Load(site.suppressions));
      site.(db := Collected(Progress(site.db, NO_COUNTS), env, run, items).db)
    case DeleteLead(leadId, suppress) =>
      if leadId !in site.db.leads.rows then site
      else Site(Deleted(site.db, leadId), if suppress then SuppressedFor(site, domainOf, leadId) else site.suppressions)
    case AddSuppression(kind, value) =>
      site.(suppressions := Added(site.suppressions, Entry(kind, NormalizeValue(domainOf, kind, value))))
    case RemoveSuppression(id) =>
      site.(suppressions := Removed(site.suppressions, id))
  }

  function Acts(site: Site, env: Env, domainOf: string -> Option<string>, actions: seq<Action>): Site {
    if actions == [] then site
    else Act(Acts(site, env, domainOf, actions[..|actions| - 1]), env, domainOf, actions[|actions| - 1])
  }

  method DeleteLeadRoute(db: Database, suppressions: SuppressionRepository, domainOf: string -> Option<string>,
                         env: Env, leadId: nat, suppress: bool) returns (found: bool)
    requires Numbered(suppressions.entries)
    modifies db, suppressions
    ensures found <==> leadId in old(db.leads).rows
    ensures Site(db.State(), suppressions.entries) ==
      Act(Site(old(db.State()), old(suppressions.entries)), env, domainOf, DeleteLead(leadId, suppress))
  {
    found := leadId in db.leads.rows;
    if !found {
      return;
    }
    var row := db.leads.rows[leadId];
    if suppress {
      var _ := suppressions.AddForLead(domainOf, ColumnOf(row, Email), ColumnOf(row, WebsiteDomain));
    }
    var _ := db.DeleteLead(leadId);
  }

  function Contact(kind: Kind): Field {
    if kind == EmailKind then Email else WebsiteDomain
  }

  /** The stored record names this contact. */
  predicate Carries(r: Record, entry: Entry) {
    Contact(entry.kind) in r.normalized.values && r.normalized.values[Contact(entry.kind)] == entry.value
  }

  /** No record naming the contact was inserted or rewritten between the two stores. */
  ghost predicate Untouched(db: Db, db': Db, entry: Entry) {
    forall id :: id in db'.records.rows && Carries(db'.records.rows[id], entry) ==>
      id in db.records.rows && db'.records.rows[id] == db.records.rows[id]
  }

  lemma UntouchedTransitive(a: Db, b: Db, c: Db, entry: Entry)
    requires Untouched(a, b, entry) && Untouched(b, c, entry)
    ensures Untouched(a, c, entry)
  {
    forall id | id in c.records.rows && Carries(c.records.rows[id], entry)
      ensures id in a.records.rows && c.records.rows[id] == a.records.rows[id]
    {
      assert Carries(b.records.rows[id], entry);
    }
  }

  /** Attaching a record rewrites at most its owner, and no other record. */
  ghost predicate OnlyOwnerChanged(db: Db, db': Db, id: nat) {
    db'.records.rows.Keys == db.records.rows.Keys &&
    (forall i :: i in db.records.rows && i != id ==> db'.records.rows[i] == db.records.rows[i]) &&
    (id in db.records.rows ==>
      db'.records.rows[id] == db.records.rows[id].(lead := db'.records.rows[id].lead))
  }

  lemma LinkedChangesOwner(db: Db, leadId: nat, recordId: nat, link: Link, claim: bool)
    ensures OnlyOwnerChanged(db, Linked(db, leadId, recordId, link, claim), recordId)
  {
  }

  lemma StoredChangesOwner(s: Progress, env: Env, run: Run, id: nat, lead: NormalizedLead, fault: Fault)
    ensures OnlyOwnerChanged(s.db, AfterStored(s, env, run, id, lead, fault).db, id)
  {
    hide Merging.MergeOf, LeadRowOf, BestFor, Linked, RemergeInputs, AttachedCount;
    var best, own := BestFor(s.db, id, lead), OwnLead(s.db, id);
    var incoming := Merging.Candidate(lead, OriginKeys.Decimal(id), run.priority);
    if MergesInto(best) {
      LinkedChangesOwner(Remerge(s.db, env, best.value.id, incoming), best.value.id, id,
                         MatchLink(best.value, false), true);
    } else if own.None? {
      LinkedChangesOwner(Create(s.db, Merging.MergeOf([incoming]), ValidateLead(env, lead)), s.db.leads.next, id,
                         Link(Initial, 1.0, false), true);
    }
    if AwaitsReview(best) {
      LinkedChangesOwner(Attached(s.db, env, id, lead, run.priority), best.value.id, id, MatchLink(best.value, true),
                         false);
    }
  }

  lemma UpsertStoresPayload(db: Db, env: Env, sourceId: nat, lead: NormalizedLead)
    ensures var db1, id := Upsert(db, env, sourceId, lead), UpsertId(db, env, sourceId, lead);
      id in db1.records.rows && db1.records.rows[id].normalized == lead.payload &&
      db1.records.rows[id].collectedAt == lead.collectedAt &&
      forall i :: i in db1.records.rows && i != id ==> i in db.records.rows && db1.records.rows[i] == db.records.rows[i]
  {
    hide Fingerprint.FingerprintsOf, ValidateLead, ByKey, RecordKey;
  }

  lemma BlockedContact(list: SuppressionList, lead: NormalizedLead, entry: Entry)
    requires Blocks(list, lead).None? && entry.value != ""
    requires if entry.kind == EmailKind then entry.value in list.emails else entry.value in list.domains
    ensures lead.Get(Contact(entry.kind)) != Some(entry.value)
  {
  }

  lemma ItemLeavesContact(s: Progress, env: Env, run: Run, item: Item, entry: Entry)
    requires entry.value != ""
    requires if entry.kind == EmailKind then entry.value in run.blocked.emails else entry.value in run.blocked.domains
    ensures Untouched(s.db, AfterItem(s, env, run, item).db, entry)
  {
    hide AfterStored, Upsert, UpsertId, Blocks, Raises;
    if item.Incoming? && item.fault != Unreadable && Blocks(run.blocked, item.lead).None? {
      BlockedContact(run.blocked, item.lead, entry);
      UpsertStoresPayload(s.db, env, run.sourceId, item.lead);
      var db1, id := Upsert(s.db, env, run.sourceId, item.lead), UpsertId(s.db, env, run.sourceId, item.lead);
      var stored := Progress(db1, Graded(s.stats.(collected := s.stats.collected + 1), ValidateLead(env, item.lead)));
      StoredChangesOwner(stored, env, run, id, item.lead, item.fault);
      assert !Carries(db1.records.rows[id], entry);
    }
  }

  lemma {:induction false} RunLeavesContact(s: Progress, env: Env, run: Run, items: seq<Item>, entry: Entry)
    requires entry.value != ""
    requires if entry.kind == EmailKind then entry.value in run.blocked.emails else entry.value in run.blocked.domains
    ensures Untouched(s.db, Collected(s, env, run, items).db, entry)
  {
    hide AfterItem, Carries;
    if items != [] {
      var init := items[..|items| - 1];
      RunLeavesContact(s, env, run, init, entry);
      ItemLeavesContact(Collected(s, env, run, init), env, run, items[|items| - 1], entry);
      UntouchedTransitive(s.db, Collected(s, env, run, init).db, Collected(s, env, run, items).db, entry);
    }
  }

  lemma ListedIsLoaded(table: Table<Entry>, entry: Entry)
    ensures Listed(table, entry) <==>
      if entry.kind == EmailKind then entry.value in Load(table).emails else entry.value in Load(table).domains
  {
    if entry.kind == EmailKind {
      if entry.value in Load(table).emails {
        var id :| id in table.rows && table.rows[id].kind == EmailKind && table.rows[id].value == entry.value;
        assert table.rows[id] == entry;
      }
    } else if entry.value in Load(table).domains {
      var id :| id in table.rows && table.rows[id].kind == DomainKind && table.rows[id].value == entry.value;
      assert table.rows[id] == entry;
    }
  }

  /** The entry is not lifted by this action. */
  predicate Respects(site: Site, action: Action, entry: Entry) {
    action.RemoveSuppression? && action.id in site.suppressions.rows ==> site.suppressions.rows[action.id] != entry
  }

  ghost predicate AllRespect(site: Site, env: Env, domainOf: string -> Option<string>, actions: seq<Action>,
                             entry: Entry)
  {
    actions == [] ||
    (AllRespect(site, env, domainOf, actions[..|actions| - 1], entry) &&
     Respects(Acts(site, env, domainOf, actions[..|actions| - 1]), actions[|actions| - 1], entry))
  }

  lemma AddedForLeadKeepsListed(table: Table<Entry>, domainOf: string -> Option<string>, email: Option<string>,
                                domain: Option<string>)
    requires Numbered(table)
    ensures var t := AddedForLead(table, domainOf, email, domain);
      Numbered(t) && (forall e :: Listed(table, e) ==> Listed(t, e)) &&
      (Truthy(email) ==> Listed(t, Entry(EmailKind, NormalizeValue(domainOf, EmailKind, email.value)))) &&
      (Truthy(domain) ==> Listed(t, Entry(DomainKind, NormalizeValue(domainOf, DomainKind, domain.value))))
  {
    hide NormalizeValue, Listed, Added;
    var t := table;
    if Truthy(email) {
      AddedIsListed(t, Entry(EmailKind, NormalizeValue(domainOf, EmailKind, email.value)));
      t := Added(t, Entry(EmailKind, NormalizeValue(domainOf, EmailKind, email.value)));
    }
    if Truthy(domain) {
      AddedIsListed(t, Entry(DomainKind, NormalizeValue(domainOf, DomainKind, domain.value)));
    }
  }

  lemma ActLeavesContact(site: Site, env: Env, domainOf: string -> Option<string>, action: Action, entry: Entry)
    requires Numbered(site.suppressions) && entry.value != "" && Listed(site.suppressions, entry)
    requires Respects(site, action, entry)
    ensures var site' := Act(site, env, domainOf, action);
      Numbered(site'.suppressions) && Listed(site'.suppressions, entry) && Untouched(site.db, site'.db, entry)
  {
    hide Collected, NormalizeValue, AddedForLead, Added, FindEntry, Load;
    match action
    case Collect(sourceId, priority, items) =>
      ListedIsLoaded(site.suppressions, entry);
      RunLeavesContact(Progress(site.db, NO_COUNTS), env, Run(sourceId, priority, Load(site.suppressions)), items,
                       entry);
    case DeleteLead(leadId, _) =>
      if leadId in site.db.leads.rows {
        var row := site.db.leads.rows[leadId];
        AddedForLeadKeepsListed(site.suppressions, domainOf, ColumnOf(row, Email), ColumnOf(row, WebsiteDomain));
      }
    case AddSuppression(kind, value) =>
      AddedIsListed(site.suppressions, Entry(kind, NormalizeValue(domainOf, kind, value)));
    case RemoveSuppression(id) =>
      var i :| i in site.suppressions.rows && site.suppressions.rows[i] == entry;
      assert Act(site, env, domainOf, action).suppressions.rows[i] == entry;
  }

  lemma {:induction false} ActsLeaveContact(
    site: Site, env: Env, domainOf: string -> Option<string>, actions: seq<Action>, entry: Entry)
    requires Numbered(site.suppressions) && entry.value != "" && Listed(site.suppressions, entry)
    requires AllRespect(site, env, domainOf, actions, entry)
    ensures var site' := Acts(site, env, domainOf, actions);
      Numbered(site'.suppressions) && Listed(site'.suppressions, entry) && Untouched(site.db, site'.db, entry)
  {
    hide Act, Listed, Respects, Carries;
    if actions != [] {
      var init := actions[..|actions| - 1];
      ActsLeaveContact(site, env, domainOf, init, entry);
      var mid := Acts(site, env, domainOf, init);
      ActLeavesContact(mid, env, domainOf, actions[|actions| - 1], entry);
      UntouchedTransitive(site.db, mid.db, Acts(site, env, domainOf, actions).db, entry);
    }
  }

  /**
   * Once a lead is deleted with suppression, whatever happens next, no collection inserts or rewrites a
   * record with its email (or domain) until that entry is removed, as long as normalising the stored
   * value again leaves it unchanged.
   */
  lemma ErasureSurvives(
    site: Site, env: Env, domainOf: string -> Option<string>, leadId: nat, kind: Kind, later: seq<Action>)
    requires Numbered(site.suppressions) && leadId in site.db.leads.rows
    requires Truthy(ColumnOf(site.db.leads.rows[leadId], Contact(kind)))
    requires var value := ColumnOf(site.db.leads.rows[leadId], Contact(kind)).value;
      NormalizeValue(domainOf, kind, value) == value &&
      AllRespect(Act(site, env, domainOf, DeleteLead(leadId, true)), env, domainOf, later, Entry(kind, value))
    ensures var erased := Act(site, env, domainOf, DeleteLead(leadId, true));
      var entry := Entry(kind, ColumnOf(site.db.leads.rows[leadId], Contact(kind)).value);
      (forall id :: id in erased.db.records.rows ==> erased.db.records.rows[id].lead != Some(leadId)) &&
      Untouched(erased.db, Acts(erased, env, domainOf, later).db, entry)
  {
    hide NormalizeValue, AddedForLead, Acts, AllRespect, Listed, Carries;
    var row := site.db.leads.rows[leadId];
    AddedForLeadKeepsListed(site.suppressions, domainOf, ColumnOf(row, Email), ColumnOf(row, WebsiteDomain));
    ActsLeaveContact(Act(site, env, domainOf, DeleteLead(leadId, true)), env, domainOf, later,
                     Entry(kind, ColumnOf(row, Contact(kind)).value));
  }

  /** A stored email is what its deletion suppresses exactly when it is plain, or normalises to nothing. */
  lemma StoredEmailIsSuppressedAsIs(domainOf: string -> Option<string>, raw: string)
    requires NormalizeEmail(raw).Some?
    ensures var email := NormalizeEmail(raw).value;
      NormalizeValue(domainOf, EmailKind, email) == email <==> PlainAddress(email) || NormalizeEmail(email).None?
  {
    hide Trimmed, PlainAddress, Strip, StripLeft, StripRight;
    var email := NormalizeEmail(raw).value;
    NormalFormIsFixedExactlyWhenPlain(raw);
    TrimmedIsClean(raw);
    LowerKeepsClean(Trimmed(raw));
    StripIsBare(email);
  }

  /** Among entries of one kind, what a deletion adds is the normal form of the lead's contact, and nothing else. */
  lemma DeletionLists(table: Table<Entry>, domainOf: string -> Option<string>, email: Option<string>,
                      domain: Option<string>, entry: Entry)
    requires Numbered(table)
    ensures Listed(AddedForLead(table, domainOf, email, domain), entry) <==>
      var contact := if entry.kind == EmailKind then email else domain;
      Listed(table, entry) || (Truthy(contact) && entry.value == NormalizeValue(domainOf, entry.kind, contact.value))
  {
    hide NormalizeValue, Listed, Added;
    AddedForLeadKeepsListed(table, domainOf, email, domain);
    var t := table;
    if Truthy(email) {
      var added := Entry(EmailKind, NormalizeValue(domainOf, EmailKind, email.value));
      AddedIsListed(t, added);
      OnlyNewEntry(t, added, entry);
      t := Added(t, added);
    }
    if Truthy(domain) {
      OnlyNewEntry(t, Entry(DomainKind, NormalizeValue(domainOf, DomainKind, domain.value)), entry);
    }
  }

  /** After a deletion this contact is listed: it was before, or it is the normal form of the lead's own. */
  ghost predicate KeptOut(table: Table<Entry>, domainOf: string -> Option<string>, kind: Kind, contact: Option<string>,
                          own: Option<string>)
  {
    Truthy(contact) &&
    (Listed(table, Entry(kind, contact.value)) ||
     (Truthy(own) && contact.value == NormalizeValue(domainOf, kind, own.value)))
  }

  /**
   * Exactly which records a deletion blocks: those whose email or domain was listed before or is the normal form
   * of the one its lead's row shows. Other records of the same lead may name other contacts, and are not blocked.
   */
  lemma {:induction false} DeletionBlocksExactlyItsContacts(
    site: Site, env: Env, domainOf: string -> Option<string>, leadId: nat, lead: NormalizedLead)
    requires Numbered(site.suppressions) && leadId in site.db.leads.rows
    ensures var row := site.db.leads.rows[leadId];
      Blocks(Load(Act(site, env, domainOf, DeleteLead(leadId, true)).suppressions), lead).Some? <==>
      KeptOut(site.suppressions, domainOf, EmailKind, lead.Get(Email), ColumnOf(row, Email)) ||
      KeptOut(site.suppressions, domainOf, DomainKind, lead.Get(WebsiteDomain), ColumnOf(row, WebsiteDomain))
  {
    hide NormalizeValue, Load, Listed, AddedForLead, Deleted;
    var row := site.db.leads.rows[leadId];
    var email, domain := lead.Get(Email), lead.Get(WebsiteDomain);
    var t := AddedForLead(site.suppressions, domainOf, ColumnOf(row, Email), ColumnOf(row, WebsiteDomain));
    assert Act(site, env, domainOf, DeleteLead(leadId, true)).suppressions == t;
    if Truthy(email) {
      ListedIsLoaded(t, Entry(EmailKind, email.value));
      DeletionLists(site.suppressions, domainOf, ColumnOf(row, Email), ColumnOf(row, WebsiteDomain),
                    Entry(EmailKind, email.value));
    }
    if Truthy(domain) {
      ListedIsLoaded(t, Entry(DomainKind, domain.value));
      DeletionLists(site.suppressions, domainOf, ColumnOf(row, Email), ColumnOf(row, WebsiteDomain),
                    Entry(DomainKind, domain.value));
    }
  }

  lemma OnlyNewEntry(table: Table<Entry>, added: Entry, other: Entry)
    ensures Listed(Added(table, added), other) ==> other == added || Listed(table, other)
  {
    if Listed(Added(table, added), other) {
      var id :| id in Added(table, added).rows && Added(table, added).rows[id] == other;
      assert other == added || (id in table.rows && table.rows[id] == other);
    }
  }
}
