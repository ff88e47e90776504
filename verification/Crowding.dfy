/** A reachable store in which the 20 candidates hide an exact match, so an email gets a second lead. */
module Crowding {
  import opened Text
  import opened Domain
  import opened OriginKeys
  import opened Fingerprint
  import opened Matching
  import opened Merging
  import opened Tables
  import opened Store
  import opened Suppressions
  import opened Lookup
  import opened Pipeline
  import opened Ownership
  import opened Derivation
  import opened Stranding
  import Rerun

  function Address(n: nat): string {
    "@" + Decimal(n)
  }

  /** A listing of one chain's branch: its own identifier and address, the chain's name and town. */
  function Branch(externalId: string, n: nat): NormalizedLead {
    NormalizedLead(SourceRef("s", None), 0,
                   Payload(map[CompanyName := "x", City := "y", Email := Address(n)],
                           map["external_id" := Some(externalId)]))
  }

  /** Branches 1 to n are collected one after another. */
  function Branches(n: nat): seq<Event> {
    if n == 0 then [Configure(1, Source("s", 0))]
    else Branches(n - 1) + [Process(RUN, Incoming(Branch(Decimal(n), n), NoFault))]
  }

  lemma ChainSlug()
    ensures CompanySlug(Some("x")) == Some("x") && LocationKey(Some("y"), None) == Some("y")
  {
    assert Lower("x") == "x" && Lower("y") == "y";
    SplitWord("x", "");
    assert "" + "x" == "x";
  }

  lemma AddressInjective(m: nat, n: nat)
    requires Address(m) == Address(n)
    ensures m == n
  {
    hide Decimal;
    assert Address(m)[1..] == Decimal(m) && Address(n)[1..] == Decimal(n);
    DecimalInjective(m, n);
  }

  lemma BranchKeys(externalId: string, n: nat)
    requires externalId != ""
    ensures FingerprintsOf(Branch(externalId, n)) ==
      Fingerprints(Some(Address(n)), None, None, Some("x"), Some("y"), Some(externalId))
    ensures RecordKey(ENV, Branch(externalId, n)) == externalId
    ensures Branch(externalId, n).collectedAt == 0 && Blocks(RUN.blocked, Branch(externalId, n)) == None
  {
    hide CompanySlug, LocationKey;
    ChainSlug();
    assert '@' in Address(n);
  }

  /** A stored branch as queries and the matcher see it. */
  predicate ShowsBranch(row: LeadRow, n: nat) {
    ColumnOf(row, Email) == Some(Address(n)) && ColumnOf(row, WebsiteDomain) == None && ColumnOf(row, Phone) == None &&
    row.nameSlug == Some("x") && row.locationKey == Some("y")
  }

  /** A row written from one branch listing. */
  lemma CreatedRow(id: nat, externalId: string, n: nat)
    ensures var c := Candidate(Branch(externalId, n), Decimal(id), 0);
      ShowsBranch(LeadRowOf(MergeOf([c]), ValidateLead(ENV, c.lead), 0), n)
  {
    hide MergeOf, ValidateLead, CompanySlug, LocationKey, Decimal;
    ChainSlug();
    var c := Candidate(Branch(externalId, n), Decimal(id), 0);
    SingletonGrade(ENV, c);
    var row := LeadRowOf(MergeOf([c]), ValidateLead(ENV, c.lead), 0);
    assert forall f: Field :: ColumnOf(row, f) == MergeOf([c]).lead.Get(f);
  }

  /** Every branch is a candidate for every other, and only one with the same address merges. */
  lemma BranchesMatchByName(leads: Table<LeadRow>, externalId: string, n: nat, id: nat, m: nat)
    requires externalId != "" && id in leads.rows && ShowsBranch(leads.rows[id], m) && Keyed(leads.rows[id])
    ensures Selects(FingerprintsOf(Branch(externalId, n)), leads.rows[id])
    ensures MatchStored(leads, Branch(externalId, n), id) == Some(
      if m == n then MatchResult(ByEmail, 1.0, true) else MatchResult(ByNameLocation, 0.8, false))
  {
    hide Similarity, CompanySlug, LocationKey, FingerprintsOf, Decimal;
    var lead, row := Branch(externalId, n), leads.rows[id];
    BranchKeys(externalId, n);
    StoredFingerprints(row, lead);
    ChainSlug();
    EqualSlugsScoreOne("x");
    var b := FingerprintsOf(AsNormalized(row, lead));
    assert '@' in Address(m) && b.email == Some(Address(m));
    if Address(m) == Address(n) { AddressInjective(m, n); }
    assert b.phone == None by { NoPhoneNoKey(row, lead); }
  }

  lemma NoPhoneNoKey(row: LeadRow, lead: NormalizedLead)
    requires ColumnOf(row, Phone) == None
    ensures FingerprintsOf(AsNormalized(row, lead)).phone == None
  {
    hide CompanySlug, LocationKey;
    assert AsNormalized(row, lead).Get(Phone) == ColumnOf(row, Phone);
  }

  /** There are n leads, one for each branch, although all share name and town. */
  ghost predicate CrowdOf(leads: Table<LeadRow>, n: nat) {
    LeadsKeyed(leads) && leads.next == n + 1 &&
    (forall id :: id in leads.rows <==> 1 <= id <= n) &&
    (forall id :: id in leads.rows ==> ShowsBranch(leads.rows[id], id))
  }

  lemma CrowdSelected(leads: Table<LeadRow>, n: nat, externalId: string, m: nat)
    requires CrowdOf(leads, n) && externalId != ""
    ensures var ids := SelectedIds(leads, FingerprintsOf(Branch(externalId, m)));
      |ids| == n && forall i :: 0 <= i < n ==> ids[i] == i + 1
  {
    hide Selects, FingerprintsOf, Keyed, ShowsBranch, Decimal;
    var fp := FingerprintsOf(Branch(externalId, m));
    var where := (id: nat, row: LeadRow) => Selects(fp, row);
    IdsAscend(leads.rows, where, 1, leads.next);
    var ids, all := SelectedIds(leads, fp), seq(n, i => i + 1);
    forall id ensures id in ids <==> id in all {
      if id in leads.rows {
        BranchesMatchByName(leads, externalId, m, id, id);
        assert all[id - 1] == id;
      }
    }
    AscendingUnique(ids, all);
  }

  /** A listing merges exactly when the lead with its address is among the first 20. */
  lemma MergesExactlyWithinTwenty(db: Db, n: nat, recordId: nat, externalId: string, m: nat)
    requires CrowdOf(db.leads, n) && externalId != "" && m >= 1 && OwnLead(db, recordId) == None
    ensures MergesInto(BestFor(db, recordId, Branch(externalId, m))) <==> m <= n && m <= 20
  {
    hide Selects, FingerprintsOf, Keyed, ShowsBranch, Decimal, MatchStored, BestOf, OwnLead;
    var lead := Branch(externalId, m);
    CrowdSelected(db.leads, n, externalId, m);
    var ids := FindCandidates(db.leads, FingerprintsOf(lead));
    BestOfIsBest(db.leads, lead, ids, None);
    var best := BestFor(db, recordId, lead);
    if best.Some? {
      assert best.value.id in ids;
      BranchesMatchByName(db.leads, externalId, m, best.value.id, best.value.id);
    }
    if m <= n && m <= 20 {
      assert ids[m - 1] == m;
      assert m in Among(ids, None);
      BranchesMatchByName(db.leads, externalId, m, m, m);
    }
  }

  ghost predicate KeysAmong(records: Table<Record>, n: nat) {
    forall id :: id in records.rows ==> exists m: nat :: m <= n && records.rows[id].key == Decimal(m)
  }

  ghost predicate Crowd(db: Db, n: nat) {
    Consistent(db) && CrowdOf(db.leads, n) && KeysAmong(db.records, n)
  }

  /** An identifier not seen before is stored unowned under the next id. */
  lemma NextIsInserted(db: Db, n: nat, m: nat)
    requires Crowd(db, n)
    ensures var lead := Branch(Decimal(n + 1), m);
      var db1, id := Upsert(db, ENV, 1, lead), UpsertId(db, ENV, 1, lead);
      db1.leads == db.leads && OwnLead(db1, id) == None && Consistent(db1) && KeysAmong(db1.records, n + 1)
  {
    hide ByKey, FingerprintsOf, ValidateLead, RecordKey, Decimal, Keyed, Solid, Branch;
    var lead := Branch(Decimal(n + 1), m);
    BranchKeys(Decimal(n + 1), m);
    ByKeyFinds(db.records, 1, Decimal(n + 1));
    var found := ByKey(db.records, 1, Decimal(n + 1));
    if found.Some? {
      var k: nat :| k <= n && db.records.rows[found.value].key == Decimal(k);
      DecimalInjective(k, n + 1);
    }
    UpsertKeepsConsistent(db, ENV, 1, lead);
    RecordRowOwner(ENV, 1, lead, None);
  }

  /**
   * A listing with a new identifier and address m joins an existing lead exactly when m is the address of one
   * of the first 20. Otherwise it becomes a lead of its own, even if lead m shows the same address.
   */
  lemma NextIsFiled(db: Db, n: nat, m: nat)
    requires Crowd(db, n) && m >= 1
    ensures var db' := ItemDb(db, ENV, RUN, Incoming(Branch(Decimal(n + 1), m), NoFault));
      Consistent(db') && KeysAmong(db'.records, n + 1) &&
      if m <= n && m <= 20 then db'.leads.rows.Keys == db.leads.rows.Keys
      else
        db'.leads.next == n + 2 && (n + 1) in db'.leads.rows && ShowsBranch(db'.leads.rows[n + 1], m) &&
        db'.leads.rows == db.leads.rows[n + 1 := db'.leads.rows[n + 1]]
  {
    hide FingerprintsOf, Consistent, ShowsBranch, Decimal, Upsert, UpsertId, BestFor, Branch, RecordRow, MergeOf,
      LeadRowOf, ItemDb, ValidateLead, Remerge, Linked, Create, Blocks, OwnLead, KeysAmong;
    var lead := Branch(Decimal(n + 1), m);
    var item := Incoming(lead, NoFault);
    var db1, id := Upsert(db, ENV, 1, lead), UpsertId(db, ENV, 1, lead);
    var incoming := Candidate(lead, Decimal(id), 0);
    NextIsInserted(db, n, m);
    BranchKeys(Decimal(n + 1), m);
    MergesExactlyWithinTwenty(db1, n, id, Decimal(n + 1), m);
    assert !Dropped(RUN, item);
    StoredItemRows(db, ENV, RUN, item);
    ItemKeepsConsistent(db, ENV, RUN, item);
    AttachLeadIds(db1, ENV, id, lead, 0);
    AttachKeepsKeys(db1, ENV, id, lead, 0, n + 1);
    if !(m <= n && m <= 20) {
      CreateShape(db1, MergeOf([incoming]), ValidateLead(ENV, lead));
      LinkedKeepsLeads(Create(db1, MergeOf([incoming]), ValidateLead(ENV, lead)), n + 1, id,
                       Link(Initial, 1.0, false), true);
      SingletonTime(incoming);
      CreatedRow(id, Decimal(n + 1), m);
    }
  }

  lemma AttachKeepsKeys(db: Db, env: Env, id: nat, lead: NormalizedLead, priority: int, n: nat)
    requires KeysAmong(db.records, n)
    ensures KeysAmong(Attached(db, env, id, lead, priority).records, n)
  {
    hide Attached, Decimal;
    Rerun.AttachKeeps(db, env, id, lead, priority);
    var rows := Attached(db, env, id, lead, priority).records.rows;
    forall i | i in rows ensures exists m: nat :: m <= n && rows[i].key == Decimal(m) {
      assert i in db.records.rows && rows[i].key == db.records.rows[i].key;
    }
  }

  lemma NoBranches()
    ensures Crowd(Exec(EMPTY_STORE, ENV, Branches(0)), 0)
  {
    assert Branches(0)[..0] == [];
    assert Exec(EMPTY_STORE, ENV, []) == EMPTY_STORE;
    assert Exec(EMPTY_STORE, ENV, Branches(0)) == EMPTY_STORE.(sources := map[1 := Source("s", 0)]);
  }

  lemma {:induction false} BranchesMakeCrowd(n: nat)
    ensures Crowd(Exec(EMPTY_STORE, ENV, Branches(n)), n)
  {
    hide ItemDb, Decimal, ShowsBranch, LeadsKeyed, Consistent, KeysAmong;
    if n == 0 {
      NoBranches();
    } else {
      BranchesMakeCrowd(n - 1);
      var db := Exec(EMPTY_STORE, ENV, Branches(n - 1));
      NextIsFiled(db, n - 1, n);
      assert Branches(n)[..|Branches(n)| - 1] == Branches(n - 1);
      ConsistentLeads(ItemDb(db, ENV, RUN, Incoming(Branch(Decimal(n), n), NoFault)));
    }
  }

  /**
   * The limit of 20 bites in reachable stores. After n branches a second listing with the last one's address
   * starts a second lead for it exactly when n exceeds 20.
   */
  lemma AddressGetsSecondLeadExactlyBeyondTwenty(n: nat)
    requires n >= 1
    ensures var db := Exec(EMPTY_STORE, ENV, Branches(n));
      var after := ItemDb(db, ENV, RUN, Incoming(Branch(Decimal(n + 1), n), NoFault));
      n in db.leads.rows && ColumnOf(db.leads.rows[n], Email) == Some(Address(n)) &&
      ((exists l | l in after.leads.rows && l !in db.leads.rows ::
          ColumnOf(after.leads.rows[l], Email) == Some(Address(n)))
       <==> n > 20)
  {
    hide ItemDb, Decimal, Consistent, Exec;
    BranchesMakeCrowd(n);
    var db := Exec(EMPTY_STORE, ENV, Branches(n));
    NextIsFiled(db, n, n);
    var after := ItemDb(db, ENV, RUN, Incoming(Branch(Decimal(n + 1), n), NoFault));
    if n > 20 {
      assert (n + 1) in after.leads.rows && (n + 1) !in db.leads.rows;
    } else {
      assert after.leads.rows.Keys == db.leads.rows.Keys;
    }
  }
}
