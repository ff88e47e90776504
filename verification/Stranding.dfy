/** A concrete history after which a stored lead is no longer the merge of its records. */
module Stranding {
  import opened Text
  import opened Domain
  import opened OriginKeys
  import opened Fingerprint
  import opened Matching
  import opened Merging
  import opened Tables
  import opened Store
  import opened Suppressions
  import opened Lookup
  import opened Pipeline
  import opened Ownership
  import opened Derivation

  const ENV := Env(p => "", s => true, s => true, s => true)
  const RUN := Run(1, 0, SuppressionList({}, {}))

  /** A listing of source s with its own identifier and an email address. */
  function Listing(externalId: string, email: string): NormalizedLead {
    NormalizedLead(SourceRef("s", None), 0, Payload(map[Email := email], map["external_id" := Some(externalId)]))
  }

  /** Listing 1 appears with address a@, listing 2 with b@, then listing 1 changes its address to b@. */
  const HISTORY: seq<Event> := [
    Configure(1, Source("s", 0)),
    Process(RUN, Incoming(Listing("1", "a@"), NoFault)),
    Process(RUN, Incoming(Listing("2", "b@"), NoFault)),
    Process(RUN, Incoming(Listing("1", "b@"), NoFault))]

  function Stored(externalId: string, email: string, leadId: nat): Record {
    RecordRow(ENV, 1, Listing(externalId, email), Some(leadId))
  }

  function NewLead(id: nat, externalId: string, email: string): LeadRow {
    var c := Candidate(Listing(externalId, email), Decimal(id), 0);
    LeadRowOf(MergeOf([c]), ValidateLead(ENV, c.lead), 0)
  }

  lemma ListingKeys(externalId: string, email: string)
    requires '@' in email && externalId != ""
    ensures var fp := FingerprintsOf(Listing(externalId, email));
      fp.email == Some(email) && fp.domain == None && fp.phone == None && fp.nameSlug == None && fp.location == None
    ensures RecordKey(ENV, Listing(externalId, email)) == externalId
    ensures Blocks(RUN.blocked, Listing(externalId, email)) == None
  {
  }

  lemma {:induction false} NewLeadKeys(id: nat, externalId: string, email: string)
    ensures ColumnOf(NewLead(id, externalId, email), Email) == Some(email)
    ensures ColumnOf(NewLead(id, externalId, email), WebsiteDomain) == None
    ensures ColumnOf(NewLead(id, externalId, email), Phone) == None
    ensures NewLead(id, externalId, email).nameSlug == None && NewLead(id, externalId, email).locationKey == None
  {
    hide MergeOf, ValidateLead;
    var c := Candidate(Listing(externalId, email), Decimal(id), 0);
    SingletonGrade(ENV, c);
    var row := NewLead(id, externalId, email);
    assert forall f: Field :: ColumnOf(row, f) == MergeOf([c]).lead.Get(f);
  }

  /** On such listings the candidate query compares emails and nothing else. */
  lemma OnlyEmailSelects(externalId: string, email: string, id: nat, otherId: string, other: string)
    requires '@' in email && externalId != ""
    ensures Selects(FingerprintsOf(Listing(externalId, email)), NewLead(id, otherId, other)) <==> email == other
  {
    hide NewLead, FingerprintsOf;
    ListingKeys(externalId, email);
    NewLeadKeys(id, otherId, other);
  }

  /** An unknown listing that no stored lead resembles becomes the next record and the next lead. */
  lemma UnknownListing(db: Db, externalId: string, email: string)
    requires '@' in email && externalId != "" && Consistent(db)
    requires ByKey(db.records, 1, externalId).None?
    requires SelectedIds(db.leads, FingerprintsOf(Listing(externalId, email))) == []
    ensures var n, l := db.records.next, db.leads.next;
      ItemDb(db, ENV, RUN, Incoming(Listing(externalId, email), NoFault)) ==
      Db(db.sources, Table(db.records.rows[n := Stored(externalId, email, l)], n + 1),
         Table(db.leads.rows[l := NewLead(n, externalId, email)], l + 1),
         db.links[(l, n) := Link(Initial, 1.0, false)])
  {
    hide FingerprintsOf, ValidateLead, RecordKey, ByKey, SelectedIds, MergeOf, LeadRowOf, Blocks, Graded, Raises,
      Decimal, Consistent;
    var lead := Listing(externalId, email);
    ListingKeys(externalId, email);
    var n, l := db.records.next, db.leads.next;
    var db1 := Upsert(db, ENV, 1, lead);
    assert db1 == db.(records := Table(db.records.rows[n := RecordRow(ENV, 1, lead, None)], n + 1));
    assert FindCandidates(db1.leads, FingerprintsOf(lead)) == [];
    assert BestFor(db1, n, lead) == None;
    var incoming := Candidate(lead, Decimal(n), 0);
    var db2 := Attached(db1, ENV, n, lead, 0);
    UpsertKeepsConsistent(db, ENV, 1, lead);
    CreateKeepsConsistent(db1, MergeOf([incoming]), ValidateLead(ENV, lead));
    SingletonTime(incoming);
    assert db2.leads == Table(db.leads.rows[l := NewLead(n, externalId, email)], l + 1);
    assert db2.records.rows == db.records.rows[n := Stored(externalId, email, l)];
  }

  lemma SingletonTime(c: Candidate)
    ensures MergeOf([c]).lead.collectedAt == c.lead.collectedAt
  {
  }

  const SOURCES: map<nat, Source> := map[1 := Source("s", 0)]
  const OWN := Link(Initial, 1.0, false)

  function After1(): Db {
    Db(SOURCES, Table(map[1 := Stored("1", "a@", 1)], 2), Table(map[1 := NewLead(1, "1", "a@")], 2), map[(1, 1) := OWN])
  }

  function After2(): Db {
    Db(SOURCES, Table(map[1 := Stored("1", "a@", 1), 2 := Stored("2", "b@", 2)], 3),
       Table(map[1 := NewLead(1, "1", "a@"), 2 := NewLead(2, "2", "b@")], 3), map[(1, 1) := OWN, (2, 2) := OWN])
  }

  lemma StoredRow(externalId: string, email: string, leadId: nat)
    requires externalId != ""
    ensures var r := Stored(externalId, email, leadId);
      r.sourceId == 1 && r.key == externalId && r.lead == Some(leadId)
  {
    hide FingerprintsOf, ValidateLead;
  }

  lemma FirstListing()
    ensures Exec(EMPTY_STORE, ENV, HISTORY[..2]) == After1() && Consistent(After1())
  {
    hide Stored, NewLead, ItemDb;
    var start := EMPTY_STORE.(sources := SOURCES);
    assert HISTORY[..2][..1] == HISTORY[..1] && HISTORY[..1][..0] == [];
    assert Exec(EMPTY_STORE, ENV, HISTORY[..1]) == start by {
      assert Exec(EMPTY_STORE, ENV, []) == EMPTY_STORE;
    }
    assert Consistent(start);
    UnknownListing(start, "1", "a@");
    ItemKeepsConsistent(start, ENV, RUN, Incoming(Listing("1", "a@"), NoFault));
  }

  lemma SecondListing()
    ensures Exec(EMPTY_STORE, ENV, HISTORY[..3]) == After2() && Consistent(After2())
  {
    hide Stored, NewLead, ItemDb, Consistent, FingerprintsOf, Selects, SelectedIds, ByKey;
    FirstListing();
    assert HISTORY[..3][..2] == HISTORY[..2];
    var db := After1();
    StoredRow("1", "a@", 1);
    assert ByKey(db.records, 1, "2").None? by {
      ByKeyFinds(db.records, 1, "2") by { NumberedRecords(db); }
    }
    OnlyEmailSelects("2", "b@", 1, "1", "a@");
    NoneSelected(db.leads, FingerprintsOf(Listing("2", "b@")));
    UnknownListing(db, "2", "b@");
    ItemKeepsConsistent(db, ENV, RUN, Incoming(Listing("2", "b@"), NoFault));
    assert db.leads.rows[2 := NewLead(2, "2", "b@")] == After2().leads.rows;
    assert db.records.rows[2 := Stored("2", "b@", 2)] == After2().records.rows;
    assert db.links[(2, 2) := OWN] == After2().links;
  }

  lemma NoneSelected(leads: Table<LeadRow>, fp: Fingerprints)
    requires forall id :: id in leads.rows ==> !Selects(fp, leads.rows[id])
    ensures SelectedIds(leads, fp) == []
  {
    hide Selects;
    var ids := SelectedIds(leads, fp);
    assert ids != [] ==> ids[0] in ids;
    IdsAscend(leads.rows, (id: nat, row: LeadRow) => Selects(fp, row), 1, leads.next);
  }

  /** Few leads mean few candidates. */
  lemma {:induction false} FewIds<T>(rows: map<nat, T>, where: (nat, T) -> bool, lo: nat, hi: nat)
    requires lo <= hi
    ensures |Ids(rows, where, lo, hi)| <= hi - lo
    decreases hi - lo
  {
    if lo < hi {
      FewIds(rows, where, lo + 1, hi);
    }
  }

  lemma RecognisedByKey(db: Db, env: Env, sourceId: nat, lead: NormalizedLead, id: nat)
    requires Consistent(db) && id in db.records.rows
    requires db.records.rows[id].sourceId == sourceId && db.records.rows[id].key == RecordKey(env, lead)
    ensures UpsertId(db, env, sourceId, lead) == id
  {
    hide RecordKey, ByKey, Solid, Keyed;
    ByKeyFinds(db.records, sourceId, RecordKey(env, lead));
  }

  /** Collected again, listing 1 is recognised by its identifier and still belongs to lead 1. */
  lemma ThirdListingIsKnown()
    ensures var db, lead := After2(), Listing("1", "b@");
      var db1 := Upsert(db, ENV, 1, lead);
      UpsertId(db, ENV, 1, lead) == 1 && db1.leads == db.leads && db1.links == db.links &&
      1 in db1.records.rows && OwnLead(db1, 1) == Some(1) && Consistent(db)
  {
    hide Stored, NewLead, Consistent, FingerprintsOf, Upsert, UpsertId, RecordKey, RecordRow, Listing;
    SecondListing();
    var lead, db := Listing("1", "b@"), After2();
    ListingKeys("1", "b@");
    StoredRow("1", "a@", 1);
    RecognisedByKey(db, ENV, 1, lead, 1);
    UpsertTouchesOne(db, ENV, 1, lead);
    UpsertKeepsConsistent(db, ENV, 1, lead);
  }

  /** With its new address listing 1 matches lead 2, and moves there from lead 1, its own. */
  lemma ThirdListingMoves()
    ensures var lead := Listing("1", "b@");
      var db1 := Upsert(After2(), ENV, 1, lead);
      UpsertId(After2(), ENV, 1, lead) == 1 && OwnLead(db1, 1) == Some(1) &&
      MergesInto(BestFor(db1, 1, lead)) && !MergesUnclaimed(db1, 1, lead)
  {
    hide Stored, NewLead, Consistent, FingerprintsOf, SelectedIds, Match, BestMatch, Upsert, UpsertId, MatchStored,
      OwnLead;
    ThirdListingIsKnown();
    var lead, db := Listing("1", "b@"), After2();
    ListingKeys("1", "b@");
    FewSelected(db.leads, FingerprintsOf(lead));
    SecondLeadMatches();
    ConsistentLeads(db);
    ExactKeyBeatsName(db.leads, lead, Some(1), 2);
    var best := BestFor(Upsert(db, ENV, 1, lead), 1, lead);
    assert best.value.id in db.leads.rows && best.value.id != 1;
  }

  lemma FewSelected(leads: Table<LeadRow>, fp: Fingerprints)
    requires 1 <= leads.next <= CANDIDATE_LIMIT
    ensures |SelectedIds(leads, fp)| <= CANDIDATE_LIMIT
  {
    hide Selects;
    FewIds(leads.rows, (id: nat, row: LeadRow) => Selects(fp, row), 1, leads.next);
  }

  lemma ConsistentLeads(db: Db)
    requires Consistent(db)
    ensures LeadsKeyed(db.leads)
  {
  }

  lemma SecondLeadMatches()
    ensures MatchStored(After2().leads, Listing("1", "b@"), 2) == Some(MatchResult(ByEmail, 1.0, true))
  {
    hide NewLead;
    var lead, row := Listing("1", "b@"), NewLead(2, "2", "b@");
    ListingKeys("1", "b@");
    NewLeadKeys(2, "2", "b@");
    assert AsNormalized(row, lead).Get(Email) == ColumnOf(row, Email);
    assert FingerprintsOf(AsNormalized(row, lead)).email == Some("b@");
  }

  /** The history is reachable, and at its end lead 1 is stored without owning a single record. */
  lemma LeadsCanFallBehindTheirRecords()
    ensures var db := Exec(EMPTY_STORE, ENV, HISTORY);
      1 in db.leads.rows && OwnedIds(db, 1) == [] && !AllDerived(db, ENV)
  {
    hide Stored, NewLead, Consistent, FingerprintsOf, SelectedIds, ByKey, BestFor, MergesUnclaimed, Attached, ItemDb,
      Wrote, Pow10, CandidateOf, OwnLead, Upsert, UpsertId, Raises, AfterStored;
    SecondListing();
    ThirdListingMoves();
    var lead, db := Listing("1", "b@"), After2();
    var db1 := Upsert(db, ENV, 1, lead);
    assert Sound(db) && FromSource(db, RUN, lead) by { SmallStoreIsSound(); }
    UpsertStoresIncoming(db, ENV, RUN, lead);
    assert db1.records.next <= Pow10(WIDTH) by { TensAreBig(); }
    OwnsOnlyFirst(db1);
    MovingStrandsTheOldLead(db1, ENV, 1, lead, 0, 1);
    var item := Incoming(lead, NoFault);
    ListingKeys("1", "b@");
    StoredItemRows(db, ENV, RUN, item);
    var db2, end := Attached(db1, ENV, 1, lead, 0), ItemDb(db, ENV, RUN, item);
    SameRowsSameDerived(db2, end, ENV);
    assert HISTORY[..4] == HISTORY && HISTORY[..4][..3] == HISTORY[..3];
    assert Exec(EMPTY_STORE, ENV, HISTORY) == end;
  }

  lemma SmallStoreIsSound()
    ensures Sound(After2()) && FromSource(After2(), RUN, Listing("1", "b@"))
  {
    hide Stored, NewLead, Consistent, Pow10;
    SecondListing();
    TensAreBig();
    StoredRow("1", "a@", 1);
    StoredRow("2", "b@", 2);
  }

  lemma OwnsOnlyFirst(db: Db)
    requires db == Upsert(After2(), ENV, 1, Listing("1", "b@")) && UpsertId(After2(), ENV, 1, Listing("1", "b@")) == 1
    ensures OwnedIds(db, 1) == [1]
  {
    hide Stored, NewLead, Consistent, FingerprintsOf, ByKey, RecordRow;
    SecondListing();
    StoredRow("1", "a@", 1);
    StoredRow("2", "b@", 2);
    UpsertTouchesOne(After2(), ENV, 1, Listing("1", "b@"));
    RowKeys();
    var where := (id: nat, r: Record) => r.lead == Some(1) && r.sourceId in db.sources;
    IdsAscend(db.records.rows, where, 1, db.records.next);
    var ids := OwnedIds(db, 1);
    assert ids == Ids(db.records.rows, where, 1, db.records.next);
    forall x ensures x in ids <==> x in [1] {
      assert x in db.records.rows ==> x == 1 || x == 2;
    }
    AscendingUnique(ids, [1]);
  }

  lemma RowKeys()
    ensures RecordRow(ENV, 1, Listing("1", "b@"), Some(1)).sourceId == 1
  {
    hide FingerprintsOf, ValidateLead;
  }

  // ---- a listing that is stored but not attached ----

  /** Listing 1 appears with a@; when it is seen again with b@, its ingest raises once the record is stored. */
  const INTERRUPTED: seq<Event> := HISTORY[..2] + [Process(RUN, Incoming(Listing("1", "b@"), Unlinked))]

  lemma OnlyRecordShows(db: Db)
    requires Numbered(db.records) && db.sources == SOURCES && db.records.rows.Keys == {1}
    requires db.records.rows[1] == Stored("1", "b@", 1)
    ensures forall c :: c in CandidatesFor(db, 1) ==> c.lead.Get(Email) == Some("b@")
  {
    hide CandidatesFor, FingerprintsOf, ValidateLead, Decimal;
    forall c | c in CandidatesFor(db, 1) ensures c.lead.Get(Email) == Some("b@") {
      CandidatesAreOwnedRecords(db, 1, c);
      var i :| IsCandidate(db, 1, i, c);
    }
  }

  lemma UpsertKeepsSources(db: Db, env: Env, sourceId: nat, lead: NormalizedLead)
    ensures Upsert(db, env, sourceId, lead).sources == db.sources
  {
  }

  /** The history is reachable, and at its end lead 1 shows an address that its only record no longer has. */
  lemma InterruptedIngestLeavesLeadBehind()
    ensures var db := Exec(EMPTY_STORE, ENV, INTERRUPTED);
      db.records.rows == map[1 := Stored("1", "b@", 1)] && 1 in db.leads.rows &&
      ColumnOf(db.leads.rows[1], Email) == Some("a@") && !Derived(db, ENV, 1)
  {
    hide Stored, NewLead, Consistent, FingerprintsOf, Upsert, UpsertId, RecordKey, RecordRow, ItemDb, Wrote, Listing,
      Suppressions.Blocks;
    FirstListing();
    var db, lead := After1(), Listing("1", "b@");
    var item := Incoming(lead, Unlinked);
    ListingKeys("1", "b@");
    StoredRow("1", "a@", 1);
    NewLeadKeys(1, "1", "a@");
    RecognisedByKey(db, ENV, 1, lead, 1);
    UpsertTouchesOne(db, ENV, 1, lead);
    UpsertKeepsConsistent(db, ENV, 1, lead);
    UpsertKeepsSources(db, ENV, 1, lead);
    UnlinkedItemStoresOnly(db, ENV, RUN, item);
    var end := Exec(EMPTY_STORE, ENV, INTERRUPTED);
    assert INTERRUPTED[..3] == INTERRUPTED && INTERRUPTED[..2] == HISTORY[..2];
    assert end == Upsert(db, ENV, 1, lead);
    assert end.records.rows[1] == Stored("1", "b@", 1) by { StoredAgain("1", "b@", 1); }
    assert end.records.rows == map[1 := Stored("1", "b@", 1)];
    NumberedRecords(end);
    OnlyRecordShows(end);
    if Derived(end, ENV, 1) {
      WrittenColumn(end, ENV, 1, CandidatesFor(end, 1), Email, "b@");
    }
  }

  lemma StoredAgain(externalId: string, email: string, leadId: nat)
    ensures RecordRow(ENV, 1, Listing(externalId, email), Some(leadId)) == Stored(externalId, email, leadId)
  {
    hide RecordRow;
  }
}
