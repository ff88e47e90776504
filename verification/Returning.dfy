/**
 * The history of `Stranding`, one event later: a record merges into a lead that is linked to it but does not
 * own it.
 */
module Returning {
  import opened Text
  import opened Domain
  import opened OriginKeys
  import opened Fingerprint
  import opened Matching
  import opened Merging
  import opened Tables
  import opened Store
  import opened Lookup
  import opened Pipeline
  import opened Ownership
  import opened Derivation
  import opened Stranding

  const BACK := Listing("1", "a@")

  /** Listing 1 changes its address back to a@. */
  const RETURN: seq<Event> := HISTORY + [Process(RUN, Incoming(BACK, NoFault))]

  // ---- the store after the listing has moved to lead 2 ----

  lemma LinkedKeepsLinks(db: Db, leadId: nat, recordId: nat, link: Link, claim: bool)
    ensures db.links.Keys <= Linked(db, leadId, recordId, link, claim).links.Keys
  {
  }

  /** No ingest drops a link. */
  lemma ItemKeepsLinks(db: Db, env: Env, run: Run, item: Item)
    ensures db.links.Keys <= ItemDb(db, env, run, item).links.Keys
  {
    hide RecordRow, ByKey, UpsertId, MergeOf, LeadRowOf, BestFor, Linked, RemergeInputs, Suppressions.Blocks, Raises,
      Graded, AttachedCount, OwnLead, ValidateLead, MatchLink;
    if item.Incoming? && !Dropped(run, item) && item.fault != Unlinked {
      var db1, id := Upsert(db, env, run.sourceId, item.lead), UpsertId(db, env, run.sourceId, item.lead);
      var best, incoming := BestFor(db1, id, item.lead), Candidate(item.lead, Decimal(id), run.priority);
      if MergesInto(best) {
        LinkedKeepsLinks(Remerge(db1, env, best.value.id, incoming), best.value.id, id, MatchLink(best.value, false),
                         true);
      } else if OwnLead(db1, id).None? {
        LinkedKeepsLinks(Create(db1, MergeOf([incoming]), ValidateLead(env, item.lead)), db1.leads.next, id,
                         Link(Initial, 1.0, false), true);
      }
      if AwaitsReview(best) {
        LinkedKeepsLinks(Attached(db1, env, id, item.lead, run.priority), best.value.id, id,
                         MatchLink(best.value, true), false);
      }
    }
  }

  /** Both records belong to lead 2 and carry b@, as lead 2 does; lead 1 still carries a@ and keeps its link. */
  ghost predicate Moved(db: Db) {
    Consistent(db) && db.sources == SOURCES && db.records.next <= 4 &&
    db.records.rows == map[1 := Stored("1", "b@", 2), 2 := Stored("2", "b@", 2)] &&
    db.leads.rows.Keys == {1, 2} && db.leads.next == 3 && (1, 1) in db.links &&
    db.leads.rows[1] == NewLead(1, "1", "a@") && ColumnOf(db.leads.rows[2], Email) == Some("b@")
  }

  /** The address of a stored listing, as its candidate shows it. */
  lemma StoredEmail(db: Db, id: nat, c: Candidate, externalId: string, email: string, owner: nat)
    requires StandsFor(db, id, c) && db.records.rows[id] == Stored(externalId, email, owner)
    ensures c.lead.Get(Email) == Some(email)
  {
    hide FingerprintsOf, ValidateLead, Decimal;
  }

  lemma InputsShow(db: Db, incoming: Candidate)
    requires Numbered(db.records) && incoming.origin == Decimal(1) && incoming.lead.Get(Email) == Some("b@")
    requires db.records.rows.Keys == {1, 2} && db.records.rows[2] == Stored("2", "b@", 2) && db.sources == SOURCES
    requires db.records.rows[1].lead == Some(1)
    ensures forall c :: c in RemergeInputs(db, 2, incoming) ==> c.lead.Get(Email) == Some("b@")
  {
    hide CandidatesFor, Decimal, Stored, CandidateOf, WithoutOrigin;
    forall c | c in RemergeInputs(db, 2, incoming) ensures c.lead.Get(Email) == Some("b@") {
      if c != incoming {
        WithoutOriginMembers(CandidatesFor(db, 2), incoming.origin, c);
        CandidatesAreOwnedRecords(db, 2, c);
        var i :| IsCandidate(db, 2, i, c);
        StoredEmail(db, i, c, "2", "b@", 2);
      }
    }
  }

  /** Collected with b@, listing 1 is still record 1, owned by lead 1. */
  lemma ThirdListingStored()
    ensures var lead := Listing("1", "b@");
      var db1 := Upsert(After2(), ENV, 1, lead);
      Ready(db1, 1, lead, 0) && db1.leads == After2().leads && db1.sources == SOURCES &&
      db1.leads.rows.Keys == {1, 2} && db1.leads.next == 3 && db1.leads.rows[1] == NewLead(1, "1", "a@") &&
      db1.records.next <= 4 && FromSource(After2(), RUN, lead) && Sound(After2()) &&
      db1.records.rows == map[1 := RecordRow(ENV, 1, lead, Some(1)), 2 := Stored("2", "b@", 2)]
  {
    hide Stored, NewLead, Consistent, FingerprintsOf, Pow10, CandidateOf, OwnLead, Upsert, UpsertId, RecordRow;
    ThirdListingIsKnown();
    var lead, db := Listing("1", "b@"), After2();
    StoredRow("1", "a@", 1);
    SmallStoreIsSound();
    UpsertStoresIncoming(db, ENV, RUN, lead);
    UpsertTouchesOne(db, ENV, 1, lead);
    UpsertKeepsConsistent(db, ENV, 1, lead);
    TensAreBig();
  }

  /** It is attached to lead 2, as its second record. */
  lemma ThirdListingShape()
    ensures var lead := Listing("1", "b@");
      var db1 := Upsert(After2(), ENV, 1, lead);
      Numbered(db1.records) && WrittenLead(db1, 1, lead) == 2 &&
      WroteOnly(db1, ENV, Attached(db1, ENV, 1, lead, 0), 2, 1,
                RemergeInputs(db1, 2, Candidate(lead, Decimal(1), 0)), true)
  {
    hide Stored, NewLead, Consistent, FingerprintsOf, BestFor, MergesUnclaimed, Attached, CandidateOf, OwnLead,
      Upsert, UpsertId, RemergeInputs, RecordRow, Wrote, Decimal, Pow10, WroteOnly;
    ThirdListingMoves();
    ThirdListingStored();
    var db1 := Upsert(After2(), ENV, 1, Listing("1", "b@"));
    AttachShape(db1, ENV, 1, Listing("1", "b@"), 0);
    NumberedRecords(db1);
  }

  /** Lead 2 is rewritten from two records that both show b@. */
  lemma ThirdListingShows()
    ensures var lead := Listing("1", "b@");
      var leads := Attached(Upsert(After2(), ENV, 1, lead), ENV, 1, lead, 0).leads;
      2 in leads.rows && ColumnOf(leads.rows[2], Email) == Some("b@")
  {
    hide Stored, NewLead, Consistent, FingerprintsOf, Attached, OwnLead, Upsert, RemergeInputs, RecordRow, ColumnOf,
      Decimal, Ready, After2, Sound, FromSource, MergeOf, LeadRowOf;
    ThirdListingStored();
    ThirdListingShape();
    var lead := Listing("1", "b@");
    var db1, incoming := Upsert(After2(), ENV, 1, lead), Candidate(lead, Decimal(1), 0);
    RecordRowOwner(ENV, 1, lead, Some(1));
    InputsShow(db1, incoming);
    WrittenColumn(Attached(db1, ENV, 1, lead, 0), ENV, 2, RemergeInputs(db1, 2, incoming), Email, "b@");
  }

  /** Attached, the listing belongs to lead 2, and lead 1 stays as it was. */
  lemma ThirdListingAttached()
    ensures var lead := Listing("1", "b@");
      var db2 := Attached(Upsert(After2(), ENV, 1, lead), ENV, 1, lead, 0);
      db2.sources == SOURCES && db2.records.next <= 4 && db2.leads.rows.Keys == {1, 2} && db2.leads.next == 3 &&
      db2.records.rows == map[1 := Stored("1", "b@", 2), 2 := Stored("2", "b@", 2)] &&
      db2.leads.rows[1] == NewLead(1, "1", "a@") && ColumnOf(db2.leads.rows[2], Email) == Some("b@")
  {
    hide Stored, NewLead, Consistent, FingerprintsOf, BestFor, MergesUnclaimed, Attached, OwnLead, Upsert,
      RemergeInputs, RecordRow, ColumnOf, Wrote, Decimal, Ready, MergesInto, After2, Sound, FromSource, Listing;
    ThirdListingMoves();
    ThirdListingStored();
    ThirdListingShape();
    ThirdListingShows();
    var lead := Listing("1", "b@");
    AttachLeadIds(Upsert(After2(), ENV, 1, lead), ENV, 1, lead, 0);
    StoredMoves(1, "1", "b@", 2);
  }

  lemma ListingMoved()
    ensures Moved(Exec(EMPTY_STORE, ENV, HISTORY))
  {
    hide Stored, NewLead, Consistent, FingerprintsOf, Attached, ItemDb, Upsert, UpsertId, Raises, AfterStored, ColumnOf;
    SecondListing();
    ThirdListingIsKnown();
    ThirdListingAttached();
    var db, item := After2(), Incoming(Listing("1", "b@"), NoFault);
    ListingKeys("1", "b@");
    StoredItemRows(db, ENV, RUN, item);
    ItemKeepsLinks(db, ENV, RUN, item);
    ItemKeepsConsistent(db, ENV, RUN, item);
    assert HISTORY[..4] == HISTORY && HISTORY[..4][..3] == HISTORY[..3];
    assert (1, 1) in db.links.Keys;
  }

  lemma StoredMoves(from: nat, externalId: string, email: string, to: nat)
    ensures RecordRow(ENV, 1, Listing(externalId, email), Some(from)).(lead := Some(to)) ==
      Stored(externalId, email, to)
  {
    hide FingerprintsOf, ValidateLead;
  }

  // ---- the listing changes back ----

  /** Collected with a@ again, listing 1 is still record 1, owned by lead 2. */
  lemma ReturnIsKnown(db: Db)
    requires Moved(db)
    ensures var db1 := Upsert(db, ENV, 1, BACK);
      UpsertId(db, ENV, 1, BACK) == 1 && OwnLead(db1, 1) == Some(2) && Consistent(db1) && db1.leads == db.leads &&
      db1.links == db.links && db1.sources == SOURCES && db1.records.next <= 5 &&
      db1.records.rows == map[1 := Stored("1", "a@", 2), 2 := Stored("2", "b@", 2)]
  {
    hide Stored, NewLead, Consistent, FingerprintsOf, RecordKey, RecordRow, ByKey;
    ListingKeys("1", "a@");
    StoredRow("1", "b@", 2);
    RecognisedByKey(db, ENV, 1, BACK, 1);
    UpsertKeepsConsistent(db, ENV, 1, BACK);
    StoredMoves(2, "1", "a@", 2);
    RecordRowOwner(ENV, 1, BACK, Some(2));
  }

  /** Lead 1 still shows a@, so it is the match; but it is linked to the record from the beginning. */
  lemma ReturnMergesUnclaimed(db: Db)
    requires Moved(db)
    ensures var db1 := Upsert(db, ENV, 1, BACK);
      MergesUnclaimed(db1, 1, BACK) && BestFor(db1, 1, BACK).value.id == 1
  {
    hide Stored, NewLead, Consistent, FingerprintsOf, SelectedIds, Match, BestMatch, Upsert, UpsertId, MatchStored,
      OwnLead;
    ReturnIsKnown(db);
    ListingKeys("1", "a@");
    FewSelected(db.leads, FingerprintsOf(BACK));
    FirstLeadMatches(db.leads);
    ConsistentLeads(db);
    ExactKeyBeatsName(db.leads, BACK, Some(2), 1);
    var best := BestFor(Upsert(db, ENV, 1, BACK), 1, BACK);
    assert best.value.id in db.leads.rows && best.value.id != 2;
  }

  lemma FirstLeadMatches(leads: Table<LeadRow>)
    requires 1 in leads.rows && leads.rows[1] == NewLead(1, "1", "a@")
    ensures MatchStored(leads, BACK, 1) == Some(MatchResult(ByEmail, 1.0, true))
  {
    hide NewLead;
    var row := NewLead(1, "1", "a@");
    ListingKeys("1", "a@");
    NewLeadKeys(1, "1", "a@");
    assert AsNormalized(row, BACK).Get(Email) == ColumnOf(row, Email);
    assert FingerprintsOf(AsNormalized(row, BACK)).email == Some("a@");
  }

  lemma NobodyOwns(db: Db, leadId: nat)
    requires Numbered(db.records) && forall id :: id in db.records.rows ==> db.records.rows[id].lead != Some(leadId)
    ensures OwnedIds(db, leadId) == [] && CandidatesFor(db, leadId) == []
  {
    var where := (id: nat, r: Record) => r.lead == Some(leadId) && r.sourceId in db.sources;
    var ids := OwnedIds(db, leadId);
    assert ids != [] ==> ids[0] in ids;
    IdsAscend(db.records.rows, where, 1, db.records.next);
  }

  lemma CandidateEmail(db: Db, id: nat, externalId: string, email: string, owner: nat)
    requires id in db.records.rows && db.records.rows[id] == Stored(externalId, email, owner) && db.sources == SOURCES
    ensures db.records.rows[id].sourceId == 1
    ensures var c := CandidateOf(db.sources, id, db.records.rows[id]);
      c.lead.Get(Email) == Some(email) && RankOf(c) == Rank(0, 0, -1, KeyOfOrigin(Decimal(id)))
  {
    hide FingerprintsOf, ValidateLead, Decimal, KeyOfOrigin;
    assert db.records.rows[id].normalized == Listing(externalId, email).payload;
    assert |map[Email := email]| == 1;
  }

  /** Record 1 is the older of two equal ones, so its address is the one a merge of both would show. */
  lemma OlderRecordWins(db: Db)
    requires Numbered(db.records) && db.sources == SOURCES
    requires db.records.rows == map[1 := Stored("1", "a@", 2), 2 := Stored("2", "b@", 2)]
    requires 2 in db.leads.rows && ColumnOf(db.leads.rows[2], Email) == Some("b@")
    ensures !Derived(db, ENV, 2)
  {
    hide Stored, CandidatesFor, Decimal, KeyOfOrigin, MergeOf, LeadRowOf, CandidateOf, RankOf;
    CandidateEmail(db, 1, "1", "a@", 2);
    CandidateEmail(db, 2, "2", "b@", 2);
    StoredRow("1", "a@", 2);
    StoredRow("2", "b@", 2);
    var c, d := CandidateOf(db.sources, 1, db.records.rows[1]), CandidateOf(db.sources, 2, db.records.rows[2]);
    assert IsCandidate(db, 2, 1, c);
    CandidatesAreOwnedRecords(db, 2, c);
    TensAreBig();
    OriginOrderIsNumeric(1, 2);
    if Derived(db, ENV, 2) {
      WrittenRow(db, ENV, 2, CandidatesFor(db, 2), Email);
      var e :| Least(e, CandidatesFor(db, 2), SlotOf(Email)) && e.lead.Get(Email) == Some("b@");
      CandidatesAreOwnedRecords(db, 2, e);
      assert false;
    }
  }

  /**
   * The unclaimed merge happens in a reachable store. At its end record 1 belongs to lead 2, which does not
   * show the record's address; lead 1 shows it, and owns no record at all.
   */
  lemma UnclaimedMergeIsReachable()
    ensures var before, after := Exec(EMPTY_STORE, ENV, HISTORY), Exec(EMPTY_STORE, ENV, RETURN);
      MergesUnclaimed(Upsert(before, ENV, 1, BACK), UpsertId(before, ENV, 1, BACK), BACK) &&
      Owner(after, 1) == Some(2) && 2 in after.leads.rows && ColumnOf(after.leads.rows[2], Email) == Some("b@") &&
      !Derived(after, ENV, 2) &&
      OwnedIds(after, 1) == [] && 1 in after.leads.rows && ColumnOf(after.leads.rows[1], Email) == Some("a@")
  {
    hide Stored, NewLead, Consistent, FingerprintsOf, BestFor, Attached, ItemDb, MergeOf, LeadRowOf, Pow10,
      CandidateOf, OwnLead, Upsert, UpsertId, Raises, AfterStored, RemergeInputs, ValidateLead, Derived, OwnedIds,
      CandidatesFor, ColumnOf;
    ListingMoved();
    var db := Exec(EMPTY_STORE, ENV, HISTORY);
    var db1 := Upsert(db, ENV, 1, BACK);
    ReturnIsKnown(db);
    ReturnMergesUnclaimed(db);
    TensAreBig();
    assert Sound(db) && FromSource(db, RUN, BACK) by {
      StoredRow("1", "b@", 2);
      StoredRow("2", "b@", 2);
    }
    UpsertStoresIncoming(db, ENV, RUN, BACK);
    var item, incoming := Incoming(BACK, NoFault), Candidate(BACK, Decimal(1), 0);
    ListingKeys("1", "a@");
    StoredItemRows(db, ENV, RUN, item);
    AttachShape(db1, ENV, 1, BACK, 0);
    AttachDerives(db1, ENV, 1, BACK, 0);
    var db2, end := Attached(db1, ENV, 1, BACK, 0), ItemDb(db, ENV, RUN, item);
    assert RETURN[..5][..4] == HISTORY && RETURN[..5] == RETURN;
    assert Exec(EMPTY_STORE, ENV, RETURN) == end;
    StoredRow("1", "a@", 2);
    StoredRow("2", "b@", 2);
    NumberedRecords(db1);
    NobodyOwns(end, 1);
    NobodyOwns(db2, 1);
    assert CandidatesFor(db2, 1) + [incoming] == [incoming];
    SameRowsSameWrote(db2, end, ENV, 1, [incoming]);
    WrittenColumn(end, ENV, 1, [incoming], Email, "a@");
    OlderRecordWins(end);
  }
}
