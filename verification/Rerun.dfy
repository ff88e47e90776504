/** Collecting the same items again adds nothing. */
module Rerun {
  import opened Text
  import opened Domain
  import opened Merging
  import opened Store
  import opened Suppressions
  import opened Pipeline
  import opened Ownership

  /** The store already holds a record under this key, and some lead owns it. */
  ghost predicate Known(db: Db, sourceId: nat, key: string) {
    exists id :: id in db.records.rows && db.records.rows[id].lead.Some? &&
      db.records.rows[id].sourceId == sourceId && db.records.rows[id].key == key
  }

  /** Records are never dropped, renamed or disowned. */
  ghost predicate Keeps(db: Db, db': Db) {
    forall id :: id in db.records.rows ==>
      id in db'.records.rows && db'.records.rows[id].sourceId == db.records.rows[id].sourceId &&
      db'.records.rows[id].key == db.records.rows[id].key &&
      (db.records.rows[id].lead.Some? ==> db'.records.rows[id].lead.Some?)
  }

  lemma KnownStaysKnown(db: Db, db': Db, sourceId: nat, key: string)
    requires Keeps(db, db') && Known(db, sourceId, key)
    ensures Known(db', sourceId, key)
  {
    var id :| id in db.records.rows && db.records.rows[id].lead.Some? &&
      db.records.rows[id].sourceId == sourceId && db.records.rows[id].key == key;
    assert db'.records.rows[id].key == key;
  }

  lemma UpsertKeeps(db: Db, env: Env, sourceId: nat, lead: NormalizedLead)
    requires Consistent(db)
    ensures Keeps(db, Upsert(db, env, sourceId, lead))
  {
    hide Fingerprint.FingerprintsOf, ValidateLead, ByKey, Solid, Keyed, RecordKey;
    ByKeyFinds(db.records, sourceId, RecordKey(env, lead));
  }

  lemma LinkedKeeps(db: Db, leadId: nat, recordId: nat, link: Link, claim: bool)
    ensures Keeps(db, Linked(db, leadId, recordId, link, claim))
    ensures Linked(db, leadId, recordId, link, claim).records.rows.Keys == db.records.rows.Keys
  {
  }

  lemma AttachKeeps(db: Db, env: Env, id: nat, lead: NormalizedLead, priority: int)
    ensures Keeps(db, Attached(db, env, id, lead, priority))
    ensures Attached(db, env, id, lead, priority).records.rows.Keys == db.records.rows.Keys
  {
    hide MergeOf, LeadRowOf, BestFor, Linked, RemergeInputs;
    var best, own := BestFor(db, id, lead), OwnLead(db, id);
    var incoming := Candidate(lead, OriginKeys.Decimal(id), priority);
    if MergesInto(best) {
      LinkedKeeps(Remerge(db, env, best.value.id, incoming), best.value.id, id, MatchLink(best.value, false), true);
    } else if own.None? {
      LinkedKeeps(Create(db, MergeOf([incoming]), ValidateLead(env, lead)), db.leads.next, id,
                  Link(Initial, 1.0, false), true);
    }
  }

  lemma StoredKeeps(s: Progress, env: Env, run: Run, id: nat, lead: NormalizedLead, fault: Fault)
    ensures Keeps(s.db, AfterStored(s, env, run, id, lead, fault).db)
    ensures AfterStored(s, env, run, id, lead, fault).db.records.rows.Keys == s.db.records.rows.Keys
  {
    hide Attached, AttachedCount, BestFor, Linked;
    AttachKeeps(s.db, env, id, lead, run.priority);
    var best := BestFor(s.db, id, lead);
    if AwaitsReview(best) {
      LinkedKeeps(Attached(s.db, env, id, lead, run.priority), best.value.id, id, MatchLink(best.value, true), false);
    }
  }

  lemma KeepsTransitive(a: Db, b: Db, c: Db)
    requires Keeps(a, b) && Keeps(b, c)
    ensures Keeps(a, c)
  {
  }

  lemma ItemKeeps(db: Db, env: Env, run: Run, item: Item)
    requires Consistent(db)
    ensures Keeps(db, ItemDb(db, env, run, item))
  {
    hide Consistent, AfterStored, Upsert, UpsertId, Blocks, Raises, Graded, Keeps;
    assert Keeps(db, db) by { KeepsItself(db); }
    if item.Incoming? {
      UpsertKeeps(db, env, run.sourceId, item.lead);
      var db1, id := Upsert(db, env, run.sourceId, item.lead), UpsertId(db, env, run.sourceId, item.lead);
      var stored := Progress(db1, Graded(NO_COUNTS.(collected := 1), ValidateLead(env, item.lead)));
      StoredKeeps(stored, env, run, id, item.lead, item.fault);
      KeepsTransitive(db, db1, AfterStored(stored, env, run, id, item.lead, item.fault).db);
    }
  }

  lemma KeepsItself(db: Db)
    ensures Keeps(db, db)
  {
  }

  predicate NoErasure(history: seq<Event>) {
    forall i :: 0 <= i < |history| ==> !history[i].Erase?
  }

  lemma {:induction false} HistoryKeeps(db: Db, env: Env, history: seq<Event>)
    requires Consistent(db) && NoErasure(history)
    ensures Keeps(db, Exec(db, env, history))
  {
    hide Consistent, ItemDb, Keeps;
    if history == [] {
      KeepsItself(db);
    } else {
      var init, last := history[..|history| - 1], history[|history| - 1];
      HistoryKeeps(db, env, init);
      HistoryKeepsConsistent(db, env, init);
      var mid := Exec(db, env, init);
      match last {
        case Process(run, item) => ItemKeeps(mid, env, run, item);
        case Configure(sourceId, source) => ConfigureKeeps(mid, sourceId, source);
      }
      KeepsTransitive(db, mid, Exec(db, env, history));
    }
  }

  lemma ConfigureKeeps(db: Db, sourceId: nat, source: Source)
    ensures Keeps(db, db.(sources := db.sources[sourceId := source]))
  {
  }

  // ---- a run is a history ----

  function Events(run: Run, items: seq<Item>): seq<Event> {
    seq(|items|, i requires 0 <= i < |items| => Process(run, items[i]))
  }

  lemma CountersDoNotMatter(s: Progress, env: Env, run: Run, item: Item)
    ensures AfterItem(s, env, run, item).db == ItemDb(s.db, env, run, item)
  {
    hide Upsert, UpsertId, Attached, AttachedCount, BestFor, Blocks, Raises, Graded, Reviewed, AwaitsReview;
  }

  /** A whole run changes the tables as its items do one by one. */
  lemma {:induction false} RunIsHistory(s: Progress, env: Env, run: Run, items: seq<Item>)
    ensures Collected(s, env, run, items).db == Exec(s.db, env, Events(run, items))
  {
    hide AfterItem, ItemDb;
    if items != [] {
      var init, last := items[..|items| - 1], items[|items| - 1];
      RunIsHistory(s, env, run, init);
      CountersDoNotMatter(Collected(s, env, run, init), env, run, last);
      assert Events(run, items)[..|items| - 1] == Events(run, init);
    }
  }

  lemma RunKeepsConsistent(s: Progress, env: Env, run: Run, items: seq<Item>)
    requires Consistent(s.db)
    ensures Consistent(Collected(s, env, run, items).db) && Keeps(s.db, Collected(s, env, run, items).db)
  {
    hide Consistent, Exec, Keeps;
    RunIsHistory(s, env, run, items);
    HistoryKeepsConsistent(s.db, env, Events(run, items));
    HistoryKeeps(s.db, env, Events(run, items));
  }

  // ---- the first run makes its items known, the second finds them ----

  lemma ProcessedIsKnown(s: Progress, env: Env, run: Run, lead: NormalizedLead)
    requires Consistent(s.db) && Blocks(run.blocked, lead).None?
    ensures Known(AfterItem(s, env, run, Incoming(lead, NoFault)).db, run.sourceId, RecordKey(env, lead))
  {
    hide Consistent, AfterStored, Upsert, UpsertId, Blocks, Graded, RecordKey, Keeps;
    UpsertKeepsConsistent(s.db, env, run.sourceId, lead);
    var db1, id := Upsert(s.db, env, run.sourceId, lead), UpsertId(s.db, env, run.sourceId, lead);
    var stored := Progress(db1, Graded(s.stats.(collected := s.stats.collected + 1), ValidateLead(env, lead)));
    StoredKeepsConsistent(stored, env, run, id, lead, NoFault);
    StoredKeeps(stored, env, run, id, lead, NoFault);
    RowKey(env, run.sourceId, lead, Owner(s.db, id));
    KeepsRow(db1, AfterStored(stored, env, run, id, lead, NoFault).db, id);
  }

  lemma KeepsRow(db: Db, db': Db, id: nat)
    requires Keeps(db, db') && id in db.records.rows
    ensures id in db'.records.rows && db'.records.rows[id].sourceId == db.records.rows[id].sourceId &&
      db'.records.rows[id].key == db.records.rows[id].key
  {
  }

  lemma RowKey(env: Env, sourceId: nat, lead: NormalizedLead, owner: Option<nat>)
    ensures RecordRow(env, sourceId, lead, owner).key == RecordKey(env, lead)
    ensures RecordRow(env, sourceId, lead, owner).sourceId == sourceId
  {
    hide Fingerprint.FingerprintsOf, ValidateLead;
  }

  predicate NoFailures(items: seq<Item>) {
    forall i :: 0 <= i < |items| ==> items[i].Incoming? ==> items[i].fault == NoFault
  }

  lemma {:induction false} RunMakesItemsKnown(s: Progress, env: Env, run: Run, items: seq<Item>, i: nat)
    requires Consistent(s.db) && NoFailures(items) && i < |items| && items[i].Incoming?
    requires Blocks(run.blocked, items[i].lead).None?
    ensures Known(Collected(s, env, run, items).db, run.sourceId, RecordKey(env, items[i].lead))
  {
    hide Consistent, AfterItem, Blocks, RecordKey, Known, Keeps;
    var init, last := items[..|items| - 1], items[|items| - 1];
    var mid := Collected(s, env, run, init);
    RunKeepsConsistent(s, env, run, init);
    if i == |items| - 1 {
      ProcessedIsKnown(mid, env, run, last.lead);
    } else {
      RunMakesItemsKnown(s, env, run, init, i);
      CountersDoNotMatter(mid, env, run, last);
      ItemKeeps(mid.db, env, run, last);
      KnownStaysKnown(mid.db, AfterItem(mid, env, run, last).db, run.sourceId, RecordKey(env, items[i].lead));
    }
  }

  /** Nothing was added: the same record ids, the same lead ids, no new lead counted. */
  ghost predicate AddsNothing(s: Progress, t: Progress) {
    t.db.records.rows.Keys == s.db.records.rows.Keys && t.db.leads.rows.Keys == s.db.leads.rows.Keys &&
    t.stats.newLeads == s.stats.newLeads
  }

  lemma KnownIsFound(db: Db, env: Env, sourceId: nat, lead: NormalizedLead)
    requires Consistent(db) && Known(db, sourceId, RecordKey(env, lead))
    ensures var db1, id := Upsert(db, env, sourceId, lead), UpsertId(db, env, sourceId, lead);
      db1.records.rows.Keys == db.records.rows.Keys && db1.leads == db.leads && OwnLead(db1, id).Some?
  {
    hide Fingerprint.FingerprintsOf, ValidateLead, ByKey, Solid, Keyed, RecordKey;
    ByKeyFinds(db.records, sourceId, RecordKey(env, lead));
  }

  lemma OwnedAttachAddsNothing(db: Db, env: Env, id: nat, lead: NormalizedLead, priority: int, c: Counters)
    requires OwnLead(db, id).Some?
    ensures var db', c' := Attached(db, env, id, lead, priority), AttachedCount(c, db, id, lead);
      AddsNothing(Progress(db, c), Progress(db', c'))
  {
    hide MergeOf, LeadRowOf, BestFor, Linked, RemergeInputs;
    AttachKeeps(db, env, id, lead, priority);
    var best := BestFor(db, id, lead);
    var incoming := Candidate(lead, OriginKeys.Decimal(id), priority);
    if MergesInto(best) {
      LinkedKeepsLeads(Remerge(db, env, best.value.id, incoming), best.value.id, id, MatchLink(best.value, false),
                       true);
    }
  }

  lemma OwnedStoredAddsNothing(s: Progress, env: Env, run: Run, id: nat, lead: NormalizedLead, fault: Fault)
    requires OwnLead(s.db, id).Some?
    ensures AddsNothing(s, AfterStored(s, env, run, id, lead, fault))
  {
    hide Attached, AttachedCount, BestFor, Linked, OwnLead;
    OwnedAttachAddsNothing(s.db, env, id, lead, run.priority, s.stats);
    var best := BestFor(s.db, id, lead);
    if AwaitsReview(best) {
      LinkedKeeps(Attached(s.db, env, id, lead, run.priority), best.value.id, id, MatchLink(best.value, true), false);
      LinkedKeepsLeads(Attached(s.db, env, id, lead, run.priority), best.value.id, id, MatchLink(best.value, true),
                       false);
    }
  }

  lemma KnownItemAddsNothing(s: Progress, env: Env, run: Run, item: Item)
    requires Consistent(s.db)
    requires item.Incoming? && Blocks(run.blocked, item.lead).None? ==>
      Known(s.db, run.sourceId, RecordKey(env, item.lead))
    ensures AddsNothing(s, AfterItem(s, env, run, item))
  {
    hide Consistent, AfterStored, Upsert, UpsertId, Blocks, Raises, RecordKey, Known, OwnLead;
    if item.Incoming? && Blocks(run.blocked, item.lead).None? {
      KnownIsFound(s.db, env, run.sourceId, item.lead);
      var db1, id := Upsert(s.db, env, run.sourceId, item.lead), UpsertId(s.db, env, run.sourceId, item.lead);
      var stored := Progress(db1, Graded(s.stats.(collected := s.stats.collected + 1), ValidateLead(env, item.lead)));
      OwnedStoredAddsNothing(stored, env, run, id, item.lead, item.fault);
    }
  }

  ghost predicate AllKnown(db: Db, env: Env, run: Run, items: seq<Item>) {
    forall i :: 0 <= i < |items| && items[i].Incoming? && Blocks(run.blocked, items[i].lead).None? ==>
      Known(db, run.sourceId, RecordKey(env, items[i].lead))
  }

  lemma {:induction false} KnownRunAddsNothing(s: Progress, env: Env, run: Run, items: seq<Item>)
    requires Consistent(s.db) && AllKnown(s.db, env, run, items)
    ensures AddsNothing(s, Collected(s, env, run, items))
  {
    hide Consistent, AfterItem, Blocks, RecordKey, Known, Keeps;
    if items != [] {
      var init, last := items[..|items| - 1], items[|items| - 1];
      KnownRunAddsNothing(s, env, run, init);
      RunKeepsConsistent(s, env, run, init);
      var mid := Collected(s, env, run, init);
      if last.Incoming? && Blocks(run.blocked, last.lead).None? {
        KnownStaysKnown(s.db, mid.db, run.sourceId, RecordKey(env, last.lead));
      }
      KnownItemAddsNothing(mid, env, run, last);
    }
  }

  /** The same sighting at another time: everything but when and where it was collected. */
  predicate SameSighting(a: Item, b: Item) {
    a.Incoming? && b.Incoming? && a.lead.payload == b.lead.payload
  }

  ghost predicate Repeats(again: seq<Item>, items: seq<Item>) {
    forall j :: 0 <= j < |again| && again[j].Incoming? ==>
      exists i :: 0 <= i < |items| && SameSighting(items[i], again[j])
  }

  /**
   * After a run without failures, collecting the same items again, in any order and whatever else was
   * ingested in between, creates no record and no lead, provided nothing was erased and no suppression lifted.
   */
  lemma RerunAddsNothing(
    start: Db, env: Env, run: Run, items: seq<Item>, between: seq<Event>, run': Run, again: seq<Item>)
    requires Consistent(start) && NoFailures(items) && NoErasure(between) && Repeats(again, items)
    requires run'.sourceId == run.sourceId
    requires run.blocked.emails <= run'.blocked.emails && run.blocked.domains <= run'.blocked.domains
    ensures var first := Collected(Progress(start, NO_COUNTS), env, run, items).db;
      var later := Progress(Exec(first, env, between), NO_COUNTS);
      AddsNothing(later, Collected(later, env, run', again))
  {
    hide Consistent, AddsNothing, Known, RecordKey, Collected, Exec, Keeps;
    var first := Collected(Progress(start, NO_COUNTS), env, run, items).db;
    RunKeepsConsistent(Progress(start, NO_COUNTS), env, run, items);
    HistoryKeepsConsistent(first, env, between);
    HistoryKeeps(first, env, between);
    var later := Exec(first, env, between);
    forall j | 0 <= j < |again| && again[j].Incoming? && Blocks(run'.blocked, again[j].lead).None?
      ensures Known(later, run'.sourceId, RecordKey(env, again[j].lead))
    {
      var i :| 0 <= i < |items| && SameSighting(items[i], again[j]);
      SameSightingSameKey(env, items[i].lead, again[j].lead);
      assert Blocks(run.blocked, items[i].lead).None?;
      RunMakesItemsKnown(Progress(start, NO_COUNTS), env, run, items, i);
      KnownStaysKnown(first, later, run.sourceId, RecordKey(env, items[i].lead));
    }
    KnownRunAddsNothing(Progress(later, NO_COUNTS), env, run', again);
  }

  lemma SameSightingSameKey(env: Env, a: NormalizedLead, b: NormalizedLead)
    requires a.payload == b.payload
    ensures RecordKey(env, a) == RecordKey(env, b)
    ensures a.Get(Email) == b.Get(Email) && a.Get(WebsiteDomain) == b.Get(WebsiteDomain)
  {
  }
}
