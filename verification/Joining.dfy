/** A store that a history makes: two records, of any two sources, that one phone joins into one lead. */
module Joining {
  import opened Text
  import opened Domain
  import opened OriginKeys
  import opened Fingerprint
  import opened Matching
  import opened Merging
  import opened Tables
  import opened Store
  import opened Suppressions
  import opened Lookup
  import opened Pipeline
  import opened Ownership
  import opened Derivation
  import opened Rerun
  import opened Stranding

  /** The configured sources, and which of them lists the first and the second record, and when. */
  datatype Setup = Setup(env: Env, sources: map<nat, Source>, a: nat, b: nat, timeA: int, timeB: int)

  predicate Fits(s: Setup) {
    s.a in s.sources && s.b in s.sources
  }

  /** A record with its own identifier and address and a phone that all of them share. */
  function Member(name: string, externalId: string, email: string, time: int): NormalizedLead {
    NormalizedLead(SourceRef(name, None), time,
                   Payload(map[Email := email, Phone := "+1"], map["external_id" := Some(externalId)]))
  }

  function First(s: Setup): NormalizedLead
    requires Fits(s)
  {
    Member(s.sources[s.a].name, "1", "a@", s.timeA)
  }

  function Second(s: Setup): NormalizedLead
    requires Fits(s)
  {
    Member(s.sources[s.b].name, "2", "b@", s.timeB)
  }

  /** An unrestricted run of one source. */
  function RunFor(s: Setup, sourceId: nat): Run
    requires sourceId in s.sources
  {
    Run(sourceId, s.sources[sourceId].priority, SuppressionList({}, {}))
  }

  function Configured(s: Setup): Db {
    EMPTY_STORE.(sources := s.sources)
  }

  function AfterFirst(s: Setup): Db
    requires Fits(s)
  {
    ItemDb(Configured(s), s.env, RunFor(s, s.a), Incoming(First(s), NoFault))
  }

  function AfterSecond(s: Setup): Db
    requires Fits(s)
  {
    ItemDb(AfterFirst(s), s.env, RunFor(s, s.b), Incoming(Second(s), NoFault))
  }

  lemma MemberKeys(s: Setup, sourceId: nat, externalId: string, email: string, time: int)
    requires '@' in email && externalId != "" && sourceId in s.sources
    ensures var lead := Member(s.sources[sourceId].name, externalId, email, time);
      FingerprintsOf(lead) == Fingerprints(Some(email), None, Some("+1"), None, None, Some(externalId)) &&
      RecordKey(s.env, lead) == externalId && Blocks(RunFor(s, sourceId).blocked, lead) == None
  {
  }

  lemma CandidateOfMember(c: Candidate, name: string, externalId: string, email: string, time: int)
    requires c.lead == Member(name, externalId, email, time)
    ensures c.lead.Get(Email) == Some(email) && c.lead.Get(Phone) == Some("+1")
    ensures RankOf(c) == Rank(-c.priority, -time, -2, KeyOfOrigin(c.origin))
  {
    hide KeyOfOrigin;
    assert map[Email := email, Phone := "+1"].Keys == {Email, Phone};
    assert |map[Email := email, Phone := "+1"]| == |{Email, Phone}|;
  }

  /** An identifier not seen before is stored under the next id, as the candidate its item is. */
  lemma MemberIsStored(db: Db, s: Setup, sourceId: nat, externalId: string, email: string, time: int)
    requires Sound(db) && db.sources == s.sources && sourceId in s.sources && db.records.next < 9
    requires '@' in email && externalId != ""
    requires forall id :: id in db.records.rows ==> db.records.rows[id].key != externalId
    ensures var lead, id, run := Member(s.sources[sourceId].name, externalId, email, time), db.records.next,
      RunFor(s, sourceId);
      var db1 := Upsert(db, s.env, sourceId, lead);
      UpsertId(db, s.env, sourceId, lead) == id && FromSource(db, run, lead) && Ready(db1, id, lead, run.priority) &&
      db1.leads == db.leads && db1.links == db.links && db1.sources == s.sources && db1.records.next == id + 1 &&
      OwnLead(db1, id) == None && (forall l :: (l, id) !in db1.links) &&
      db1.records.rows == db.records.rows[id := RecordRow(s.env, sourceId, lead, None)] &&
      !Dropped(run, Incoming(lead, NoFault)) && id < Pow10(WIDTH) && db1.records.rows[id].key == externalId
  {
    hide ByKey, FingerprintsOf, ValidateLead, RecordKey, Keyed, Solid, Pow10, Blocks, CandidateOf, Decimal;
    var lead := Member(s.sources[sourceId].name, externalId, email, time);
    MemberKeys(s, sourceId, externalId, email, time);
    ByKeyFinds(db.records, sourceId, externalId);
    TensAreBig();
    UpsertKeepsConsistent(db, s.env, sourceId, lead);
    UpsertStoresIncoming(db, s.env, RunFor(s, sourceId), lead);
    RecordRowOwner(s.env, sourceId, lead, None);
    RowKey(s.env, sourceId, lead, None);
  }

  /** Record 1 started lead 1, which shows its address and phone. */
  ghost predicate Started(db: Db, s: Setup)
    requires Fits(s)
  {
    Sound(db) && db.sources == s.sources && db.records.next == 2 && db.records.rows.Keys == {1} && db.leads.next == 2 &&
    db.leads.rows.Keys == {1} && Derived(db, s.env, 1) && Owner(db, 1) == Some(1) && db.records.rows[1].key == "1" &&
    db.records.rows[1].sourceId == s.a &&
    CandidateOf(db.sources, 1, db.records.rows[1]) == Candidate(First(s), Decimal(1), s.sources[s.a].priority)
  }

  lemma ConfiguredIsSound(s: Setup)
    requires Fits(s)
    ensures Sound(Configured(s)) && SelectedIds(Configured(s).leads, FingerprintsOf(First(s))) == []
  {
    hide FingerprintsOf, Selects, Pow10;
    TensAreBig();
    NoneSelected(Configured(s).leads, FingerprintsOf(First(s)));
  }

  /** A change of owner changes nothing that a candidate shows. */
  lemma OwnerAside(sources: map<nat, Source>, id: nat, r: Record, owner: Option<nat>)
    requires r.sourceId in sources
    ensures CandidateOf(sources, id, r.(lead := owner)) == CandidateOf(sources, id, r)
  {
  }

  lemma FirstIsCollected(s: Setup)
    requires Fits(s)
    ensures Started(AfterFirst(s), s)
  {
    hide FingerprintsOf, Consistent, Upsert, UpsertId, RecordRow, MergeOf, LeadRowOf, Attached, Pow10, CandidateOf,
      Decimal, Derived, OwnLead, SelectedIds, ItemDb, Member, Dropped;
    var db, lead, run := Configured(s), First(s), RunFor(s, s.a);
    var item := Incoming(lead, NoFault);
    ConfiguredIsSound(s);
    MemberIsStored(db, s, s.a, "1", "a@", s.timeA);
    var db1 := Upsert(db, s.env, s.a, lead);
    assert FindCandidates(db1.leads, FingerprintsOf(lead)) == [];
    assert BestFor(db1, 1, lead) == None;
    StoredItemRows(db, s.env, run, item);
    AttachShape(db1, s.env, 1, lead, run.priority);
    AttachLeadIds(db1, s.env, 1, lead, run.priority);
    IngestDerives(db, s.env, run, item);
    EventKeepsSound(db, s.env, Process(run, item));
    OwnerAside(db1.sources, 1, db1.records.rows[1], Some(1));
    RowKey(s.env, s.a, lead, None);
  }

  /** All that a lead's only record shows, the lead shows. */
  lemma StartedShows(db: Db, s: Setup)
    requires Fits(s) && Started(db, s)
    ensures ColumnOf(db.leads.rows[1], Phone) == Some("+1")
  {
    hide Consistent, MergeOf, LeadRowOf, CandidatesFor, CandidateOf, Decimal, Pow10;
    NumberedRecords(db);
    forall c | c in CandidatesFor(db, 1) ensures c.lead.Get(Phone) == Some("+1") {
      CandidatesAreOwnedRecords(db, 1, c);
      var i :| IsCandidate(db, 1, i, c);
      CandidateOfMember(c, s.sources[s.a].name, "1", "a@", s.timeA);
    }
    WrittenColumn(db, s.env, 1, CandidatesFor(db, 1), Phone, "+1");
  }

  /** Lead 1 is an exact match of every record with the shared phone. */
  lemma PhoneMatches(leads: Table<LeadRow>, s: Setup)
    requires Fits(s) && 1 in leads.rows && Keyed(leads.rows[1]) && ColumnOf(leads.rows[1], Phone) == Some("+1")
    ensures MatchStored(leads, Second(s), 1).Some? && MatchStored(leads, Second(s), 1).value.rule != ByNameLocation
  {
    hide CompanySlug, LocationKey, Similarity, MatchNameLocation;
    MemberKeys(s, s.b, "2", "b@", s.timeB);
    StoredFingerprints(leads.rows[1], Second(s));
    assert "+1"[0] == '+';
    assert FingerprintsOf(AsNormalized(leads.rows[1], Second(s))).phone == Some("+1");
  }

  /** Both records belong to lead 1, the only one. */
  ghost predicate Joined(db: Db, s: Setup)
    requires Fits(s)
  {
    Sound(db) && db.sources == s.sources && db.records.rows.Keys == {1, 2} && db.records.next == 3 &&
    db.leads.rows.Keys == {1} && Derived(db, s.env, 1) && Owner(db, 1) == Some(1) && Owner(db, 2) == Some(1) &&
    db.records.rows[1].sourceId == s.a && db.records.rows[2].sourceId == s.b &&
    CandidateOf(db.sources, 1, db.records.rows[1]) == Candidate(First(s), Decimal(1), s.sources[s.a].priority) &&
    CandidateOf(db.sources, 2, db.records.rows[2]) == Candidate(Second(s), Decimal(2), s.sources[s.b].priority)
  }

  lemma SecondMerges(db: Db, s: Setup)
    requires Fits(s) && Started(db, s)
    ensures var db1 := Upsert(db, s.env, s.b, Second(s));
      MergesInto(BestFor(db1, 2, Second(s))) && WrittenLead(db1, 2, Second(s)) == 1 &&
        !MergesUnclaimed(db1, 2, Second(s))
  {
    hide FingerprintsOf, Consistent, Upsert, UpsertId, RecordRow, Pow10, CandidateOf, Decimal, Derived, OwnLead,
      SelectedIds, Member, Dropped, MatchStored, BestMatch, Ready, Sound;
    assert Sound(db) && Consistent(db) by { SoundIsConsistent(db); }
    MemberIsStored(db, s, s.b, "2", "b@", s.timeB);
    StartedShows(db, s);
    ConsistentLeads(db);
    PhoneMatches(db.leads, s);
    MemberKeys(s, s.b, "2", "b@", s.timeB);
    FewSelected(db.leads, FingerprintsOf(Second(s)));
    ExactKeyBeatsName(db.leads, Second(s), None, 1);
  }

  lemma SoundIsConsistent(db: Db)
    requires Sound(db)
    ensures Consistent(db)
  {
  }

  lemma SecondIsCollected(s: Setup)
    requires Fits(s)
    ensures Joined(AfterSecond(s), s)
  {
    hide FingerprintsOf, Consistent, Upsert, UpsertId, RecordRow, MergeOf, LeadRowOf, Attached, Pow10, CandidateOf,
      Decimal, Derived, OwnLead, ItemDb, Member, Dropped, BestFor, MergesInto, MergesUnclaimed, WrittenLead, Wrote;
    var db, lead, run := AfterFirst(s), Second(s), RunFor(s, s.b);
    FirstIsCollected(s);
    var item := Incoming(lead, NoFault);
    MemberIsStored(db, s, s.b, "2", "b@", s.timeB);
    SecondMerges(db, s);
    var db1 := Upsert(db, s.env, s.b, lead);
    StoredItemRows(db, s.env, run, item);
    AttachShape(db1, s.env, 2, lead, run.priority);
    AttachLeadIds(db1, s.env, 2, lead, run.priority);
    IngestDerives(db, s.env, run, item);
    EventKeepsSound(db, s.env, Process(run, item));
    OwnerAside(db1.sources, 2, db1.records.rows[2], Some(1));
    RowKey(s.env, s.b, lead, None);
  }

  /**
   * Whatever the sources' priorities are by then: if lead 1 is the merge of its records, it shows the address of
   * the second exactly when that ranks before the first, by priority and then by time.
   */
  lemma JoinedShows(db: Db, s: Setup, sources: map<nat, Source>)
    requires Fits(s) && Joined(db, s) && s.sources.Keys <= sources.Keys
    requires Derived(db.(sources := sources), s.env, 1)
    ensures var p, q := sources[s.a].priority, sources[s.b].priority;
      ColumnOf(db.leads.rows[1], Email) == Some(if p < q || (p == q && s.timeA < s.timeB) then "b@" else "a@")
  {
    hide Consistent, MergeOf, LeadRowOf, CandidatesFor, Decimal, Pow10, KeyOfOrigin, RankOf, Member;
    var db' := db.(sources := sources);
    NumberedRecords(db);
    TensAreBig();
    OriginOrderIsNumeric(1, 2);
    var c, d := CandidateOf(sources, 1, db.records.rows[1]), CandidateOf(sources, 2, db.records.rows[2]);
    MemberRank(db, s, sources);
    assert IsCandidate(db', 1, 1, c) && IsCandidate(db', 1, 2, d);
    CandidatesAreOwnedRecords(db', 1, c);
    CandidatesAreOwnedRecords(db', 1, d);
    WrittenRow(db', s.env, 1, CandidatesFor(db', 1), Email);
    assert ColumnOf(db.leads.rows[1], Email).Some?;
    var e :| Least(e, CandidatesFor(db', 1), SlotOf(Email)) && ColumnOf(db.leads.rows[1], Email) == e.lead.Get(Email);
    CandidatesAreOwnedRecords(db', 1, e);
    assert e == c || e == d;
    assert Holds(c, SlotOf(Email)) && Holds(d, SlotOf(Email));
  }

  lemma MemberRank(db: Db, s: Setup, sources: map<nat, Source>)
    requires Fits(s) && Joined(db, s) && s.sources.Keys <= sources.Keys
    ensures var c, d := CandidateOf(sources, 1, db.records.rows[1]), CandidateOf(sources, 2, db.records.rows[2]);
      c.lead.Get(Email) == Some("a@") && d.lead.Get(Email) == Some("b@") &&
      RankOf(c) == Rank(-sources[s.a].priority, -s.timeA, -2, KeyOfOrigin(Decimal(1))) &&
      RankOf(d) == Rank(-sources[s.b].priority, -s.timeB, -2, KeyOfOrigin(Decimal(2)))
  {
    hide Sound, Derived, Decimal, KeyOfOrigin, RankOf;
    var c, d := CandidateOf(sources, 1, db.records.rows[1]), CandidateOf(sources, 2, db.records.rows[2]);
    assert c.lead == Member(sources[s.a].name, "1", "a@", s.timeA);
    assert d.lead == Member(sources[s.b].name, "2", "b@", s.timeB);
    CandidateOfMember(c, sources[s.a].name, "1", "a@", s.timeA);
    CandidateOfMember(d, sources[s.b].name, "2", "b@", s.timeB);
  }
}
