/** When a stored lead is exactly the merge of the records it owns. */
module Derivation {
  import opened Text
  import opened Domain
  import opened OriginKeys
  import opened Merging
  import opened Tables
  import opened Store
  import opened Pipeline
  import opened Ownership

  ghost predicate SourcesKnown(db: Db) {
    forall id :: id in db.records.rows ==> db.records.rows[id].sourceId in db.sources
  }

  /** What the derivation theorems start from: a reachable store with ids short enough to sort as text. */
  ghost predicate Sound(db: Db) {
    Consistent(db) && SourcesKnown(db) && db.records.next <= Pow10(WIDTH)
  }

  ghost predicate StandsFor(db: Db, id: nat, c: Candidate) {
    id in db.records.rows && db.records.rows[id].sourceId in db.sources &&
    c == CandidateOf(db.sources, id, db.records.rows[id])
  }

  ghost predicate IsCandidate(db: Db, leadId: nat, id: nat, c: Candidate) {
    StandsFor(db, id, c) && db.records.rows[id].lead == Some(leadId)
  }

  /** The candidates of a lead are its records, each with its source's current name and priority. */
  lemma CandidatesAreOwnedRecords(db: Db, leadId: nat, c: Candidate)
    requires Numbered(db.records)
    ensures c in CandidatesFor(db, leadId) <==> exists id :: IsCandidate(db, leadId, id, c)
  {
    var where := (id: nat, r: Record) => r.lead == Some(leadId) && r.sourceId in db.sources;
    IdsAscend(db.records.rows, where, 1, db.records.next);
    var ids := OwnedIds(db, leadId);
    assert ids == Ids(db.records.rows, where, 1, db.records.next);
    var cands := CandidatesFor(db, leadId);
    if c in cands {
      var i :| 0 <= i < |cands| && cands[i] == c;
      assert ids[i] in ids;
      assert IsCandidate(db, leadId, ids[i], c);
    }
    if id :| IsCandidate(db, leadId, id, c) {
      assert id in ids;
      var i :| 0 <= i < |ids| && ids[i] == id;
      assert cands[i] == c;
    }
  }

  lemma {:induction false} WithoutOriginMembers(cands: seq<Candidate>, origin: string, c: Candidate)
    ensures c in WithoutOrigin(cands, origin) <==> c in cands && c.origin != origin
  {
    if cands != [] {
      WithoutOriginMembers(cands[1..], origin, c);
      assert cands == [cands[0]] + cands[1..];
    }
  }

  /** Every candidate stands for some stored record. */
  ghost predicate FromRecords(db: Db, cands: seq<Candidate>) {
    forall c :: c in cands ==> exists id :: StandsFor(db, id, c)
  }

  /** Records never tie, because their ids never do. */
  lemma RecordsNeverTie(db: Db, cands: seq<Candidate>)
    requires Numbered(db.records) && db.records.next <= Pow10(WIDTH) && FromRecords(db, cands)
    ensures TiesAgree(cands)
  {
    hide KeyOfOrigin, Decimal, Pow10;
    forall c, d | c in cands && d in cands && RankOf(c) == RankOf(d) ensures c == d {
      var i :| StandsFor(db, i, c);
      var j :| StandsFor(db, j, d);
      OriginOrderIsNumeric(i, j);
    }
    DistinctRanksAgree(cands);
  }

  /** Handing a record to a lead makes the lead's candidates exactly what its re-merge used. */
  lemma RemergeUsesOwnedRecords(db: Db, leadId: nat, id: nat, db': Db)
    requires Numbered(db.records) && id in db.records.rows && db.records.rows[id].sourceId in db.sources
    requires db'.sources == db.sources && db'.records.next == db.records.next
    requires db'.records.rows == db.records.rows[id := db.records.rows[id].(lead := Some(leadId))]
    ensures SameMembers(
      RemergeInputs(db, leadId, CandidateOf(db.sources, id, db.records.rows[id])), CandidatesFor(db', leadId))
  {
    hide Decimal, CandidatesFor, WithoutOrigin;
    var incoming := CandidateOf(db.sources, id, db.records.rows[id]);
    forall c ensures c in RemergeInputs(db, leadId, incoming) <==> c in CandidatesFor(db', leadId) {
      CandidatesAreOwnedRecords(db, leadId, c);
      CandidatesAreOwnedRecords(db', leadId, c);
      WithoutOriginMembers(CandidatesFor(db, leadId), incoming.origin, c);
      if c in CandidatesFor(db', leadId) {
        var i :| IsCandidate(db', leadId, i, c);
        if i == id {
          assert c == incoming;
        } else {
          assert IsCandidate(db, leadId, i, c);
          if Decimal(i) == Decimal(id) { DecimalInjective(i, id); }
        }
      }
      if c in RemergeInputs(db, leadId, incoming) {
        if c == incoming {
          assert IsCandidate(db', leadId, id, c);
        } else {
          var i :| IsCandidate(db, leadId, i, c);
          assert IsCandidate(db', leadId, i, c);
        }
      }
    }
  }

  lemma CandidatesFromRecords(db: Db, leadId: nat)
    requires Numbered(db.records)
    ensures FromRecords(db, CandidatesFor(db, leadId))
  {
    hide CandidateOf, CandidatesFor;
    forall c | c in CandidatesFor(db, leadId) ensures exists id :: StandsFor(db, id, c) {
      CandidatesAreOwnedRecords(db, leadId, c);
      var id :| IsCandidate(db, leadId, id, c);
      assert StandsFor(db, id, c);
    }
  }

  /** The lead's row is the one written from the merge of `inputs`. */
  ghost predicate Wrote(db: Db, env: Env, leadId: nat, inputs: seq<Candidate>) {
    leadId in db.leads.rows && inputs != [] &&
    var merged := MergeOf(inputs);
    db.leads.rows[leadId] == LeadRowOf(merged, ValidateLead(env, merged.lead), db.leads.rows[leadId].firstSeen)
  }

  /**
   * What a written row says: each column is that of its best-ranked holder, and the lead was last seen when
   * the newest of its records was, or when it was first seen if that is later.
   */
  lemma WrittenRow(db: Db, env: Env, leadId: nat, inputs: seq<Candidate>, f: Field)
    requires Wrote(db, env, leadId, inputs)
    ensures var row := db.leads.rows[leadId];
      (ColumnOf(row, f).Some? ==> exists c :: Least(c, inputs, SlotOf(f)) && ColumnOf(row, f) == c.lead.Get(f)) &&
      (ColumnOf(row, f).None? && f != WebsiteDomain ==> forall c :: c in inputs ==> c.lead.Get(f) == None) &&
      row.firstSeen <= row.lastSeen && (forall c :: c in inputs ==> c.lead.collectedAt <= row.lastSeen) &&
      (row.lastSeen == row.firstSeen || exists c :: c in inputs && c.lead.collectedAt == row.lastSeen)
  {
    hide RankLess, RankOf, ValidateLead, Least, Winner;
    MergedColumnHasOneOrigin(inputs, f);
    LatestSightingIsMax(inputs);
    var row := db.leads.rows[leadId];
    assert ColumnOf(row, f) == MergeOf(inputs).lead.Get(f);
    if f in MergeOf(inputs).origins && f != WebsiteDomain {
      var c :| Least(c, inputs, SlotOf(f)) && MergeOf(inputs).lead.Get(f) == c.lead.Get(f);
      LeastHasColumn(c, inputs, f);
    } else if f != WebsiteDomain {
      forall c | c in inputs ensures c.lead.Get(f) == None {
        assert !Holds(c, SlotOf(f));
      }
    }
  }

  lemma LeastHasColumn(c: Candidate, cands: seq<Candidate>, f: Field)
    requires Least(c, cands, SlotOf(f)) && f != WebsiteDomain
    ensures c.lead.Get(f).Some?
  {
  }

  lemma LeastIsMember(c: Candidate, cands: seq<Candidate>, slot: Slot)
    requires Least(c, cands, slot)
    ensures c in cands
  {
  }

  /** A lead shows what all the records it is written from show. */
  lemma WrittenColumn(db: Db, env: Env, leadId: nat, inputs: seq<Candidate>, f: Field, value: string)
    requires Wrote(db, env, leadId, inputs) && f != WebsiteDomain
    requires forall c :: c in inputs ==> c.lead.Get(f) == Some(value)
    ensures ColumnOf(db.leads.rows[leadId], f) == Some(value)
  {
    hide Least, MergeOf, LeadRowOf;
    WrittenRow(db, env, leadId, inputs, f);
    assert inputs[0] in inputs;
    var c :| Least(c, inputs, SlotOf(f)) && ColumnOf(db.leads.rows[leadId], f) == c.lead.Get(f);
    LeastIsMember(c, inputs, SlotOf(f));
  }

  /** The lead is exactly the merge of the records it owns. */
  ghost predicate Derived(db: Db, env: Env, leadId: nat) {
    Wrote(db, env, leadId, CandidatesFor(db, leadId))
  }

  /** A row written from inputs with the same members as the lead's records makes the lead derived. */
  lemma {:induction false} WrittenIsDerived(db: Db, env: Env, leadId: nat, inputs: seq<Candidate>)
    requires Numbered(db.records) && db.records.next <= Pow10(WIDTH)
    requires Wrote(db, env, leadId, inputs) && SameMembers(inputs, CandidatesFor(db, leadId))
    ensures Derived(db, env, leadId)
  {
    hide CandidatesFor, MergeOf, LeadRowOf, Pow10;
    var cands := CandidatesFor(db, leadId);
    assert inputs[0] in cands;
    CandidatesFromRecords(db, leadId);
    RecordsNeverTie(db, cands);
    MergeOfMembers(cands, inputs);
  }

  /** The incoming lead and its run agree with the configured source. */
  ghost predicate FromSource(db: Db, run: Run, lead: NormalizedLead) {
    run.sourceId in db.sources && db.sources[run.sourceId] == Source(lead.source.name, run.priority)
  }

  /** After the upsert the stored record is the incoming candidate. */
  lemma UpsertStoresIncoming(db: Db, env: Env, run: Run, lead: NormalizedLead)
    requires Sound(db) && FromSource(db, run, lead)
    ensures var db1, id := Upsert(db, env, run.sourceId, lead), UpsertId(db, env, run.sourceId, lead);
      Consistent(db1) && SourcesKnown(db1) && db1.records.next <= db.records.next + 1 && db1.sources == db.sources &&
      id in db1.records.rows &&
      CandidateOf(db1.sources, id, db1.records.rows[id]) == Candidate(lead, Decimal(id), run.priority)
  {
    hide Fingerprint.FingerprintsOf, Consistent, ByKey, Decimal, Pow10;
    UpsertKeepsConsistent(db, env, run.sourceId, lead);
  }

  /** The lead that an ingest of record `id` writes. */
  function WrittenLead(db: Db, id: nat, lead: NormalizedLead): nat {
    var best, own := BestFor(db, id, lead), OwnLead(db, id);
    if MergesInto(best) then best.value.id else if own.Some? then own.value else db.leads.next
  }

  /** A record that is linked already but owned elsewhere: the one way an ingest re-merges without claiming. */
  ghost predicate MergesUnclaimed(db: Db, id: nat, lead: NormalizedLead) {
    var best := BestFor(db, id, lead);
    MergesInto(best) && (best.value.id, id) in db.links
  }

  ghost predicate Ready(db: Db, id: nat, lead: NormalizedLead, priority: int) {
    Sound(db) && id in db.records.rows &&
    CandidateOf(db.sources, id, db.records.rows[id]) == Candidate(lead, Decimal(id), priority)
  }

  /** Only lead `w` is written, and only record `id` can change hands. */
  ghost predicate WroteOnly(db: Db, env: Env, db': Db, w: nat, id: nat, inputs: seq<Candidate>, claimed: bool)
    requires id in db.records.rows
  {
    Wrote(db', env, w, inputs) &&
    (w in db.leads.rows ==> db'.leads.rows[w].firstSeen == db.leads.rows[w].firstSeen) &&
    (forall l :: l != w ==> (l in db'.leads.rows <==> l in db.leads.rows)) &&
    (forall l :: l != w && l in db.leads.rows ==> db'.leads.rows[l] == db.leads.rows[l]) &&
    db'.sources == db.sources && db'.records.next == db.records.next &&
    db'.records.rows ==
      if claimed then db.records.rows[id := db.records.rows[id].(lead := Some(w))] else db.records.rows
  }

  lemma RemergeWrites(db: Db, env: Env, leadId: nat, id: nat, incoming: Candidate)
    requires leadId in db.leads.rows && id in db.records.rows
    ensures WroteOnly(db, env, Remerge(db, env, leadId, incoming), leadId, id,
                      RemergeInputs(db, leadId, incoming), false)
  {
    hide MergeOf, RemergeInputs;
  }

  lemma {:induction false} CreateWrites(db: Db, env: Env, id: nat, incoming: Candidate)
    requires Consistent(db) && id in db.records.rows
    ensures WroteOnly(db, env, Create(db, MergeOf([incoming]), ValidateLead(env, MergeOf([incoming]).lead)),
                      db.leads.next, id, RemergeInputs(db, db.leads.next, incoming), false)
  {
    hide MergeOf, RemergeInputs;
    NobodyOwnsNext(db, incoming);
  }

  lemma LinkedClaims(db: Db, env: Env, db1: Db, w: nat, id: nat, inputs: seq<Candidate>, link: Link)
    requires id in db.records.rows && WroteOnly(db, env, db1, w, id, inputs, false) && db1.links == db.links
    ensures WroteOnly(db, env, Linked(db1, w, id, link, true), w, id, inputs, (w, id) !in db.links)
  {
    hide MergeOf, LeadRowOf;
  }

  /** What attaching does to the rows, in all three branches. */
  lemma AttachShape(db: Db, env: Env, id: nat, lead: NormalizedLead, priority: int)
    requires Ready(db, id, lead, priority)
    ensures var w := WrittenLead(db, id, lead);
      WroteOnly(db, env, Attached(db, env, id, lead, priority), w, id,
                RemergeInputs(db, w, Candidate(lead, Decimal(id), priority)), !MergesUnclaimed(db, id, lead))
  {
    hide MergeOf, RemergeInputs, LeadRowOf, BestFor, Consistent, CandidateOf, Decimal, Pow10, Remerge, Create, Linked,
      Wrote;
    var best, own, w := BestFor(db, id, lead), OwnLead(db, id), WrittenLead(db, id, lead);
    var incoming := Candidate(lead, Decimal(id), priority);
    var inputs := RemergeInputs(db, w, incoming);
    if MergesInto(best) {
      RemergeWrites(db, env, w, id, incoming);
      RemergeShape(db, env, w, incoming);
      LinkedClaims(db, env, Remerge(db, env, w, incoming), w, id, inputs, MatchLink(best.value, false));
    } else if own.Some? {
      RemergeWrites(db, env, w, id, incoming);
      assert db.records.rows[id].(lead := Some(w)) == db.records.rows[id];
    } else {
      CreateWrites(db, env, id, incoming);
      SingletonGrade(env, incoming);
      CreateShape(db, MergeOf([incoming]), ValidateLead(env, lead));
      CreateKeepsConsistent(db, MergeOf([incoming]), ValidateLead(env, lead));
      LinkedClaims(db, env, Create(db, MergeOf([incoming]), ValidateLead(env, lead)), w, id, inputs,
                   Link(Initial, 1.0, false));
    }
  }

  lemma NobodyOwnsNext(db: Db, incoming: Candidate)
    requires Consistent(db)
    ensures RemergeInputs(db, db.leads.next, incoming) == [incoming]
  {
    hide CandidatesFor, Keyed, Solid;
    var cands := CandidatesFor(db, db.leads.next);
    if cands != [] {
      CandidatesAreOwnedRecords(db, db.leads.next, cands[0]);
      OwnersExist(db);
      assert false;
    }
  }

  /** A lead created from one record grades as that record did. */
  lemma SingletonGrade(env: Env, c: Candidate)
    ensures ValidateLead(env, MergeOf([c]).lead) == ValidateLead(env, c.lead)
    ensures forall f: Field :: f != WebsiteDomain ==> MergeOf([c]).lead.Get(f) == c.lead.Get(f)
    ensures c.lead.Get(Website) == None ==> MergeOf([c]).lead.Get(WebsiteDomain) == None
  {
    hide RankLess, RankOf, Grade;
    forall f: Field | f != WebsiteDomain ensures MergeOf([c]).lead.Get(f) == c.lead.Get(f) {
      assert Winner([c], Column(f)) == Offer(c, Column(f));
      assert f in MergedValues([c]) <==> f in c.lead.payload.values;
    }
    assert Winner([c], Column(Website)) == Offer(c, Column(Website));
  }

  /**
   * After an ingest the lead it wrote is the merge of exactly the records it now owns, unless the record
   * was already linked to it while owned by another lead; then the lead also contains that record.
   */
  lemma AttachDerives(db: Db, env: Env, id: nat, lead: NormalizedLead, priority: int)
    requires Ready(db, id, lead, priority)
    ensures var db', w := Attached(db, env, id, lead, priority), WrittenLead(db, id, lead);
      if MergesUnclaimed(db, id, lead)
      then
        Owner(db', id) != Some(w) &&
        Wrote(db', env, w, CandidatesFor(db', w) + [Candidate(lead, Decimal(id), priority)])
      else Owner(db', id) == Some(w) && Derived(db', env, w)
  {
    hide MergeOf, LeadRowOf, BestFor, Attached, Decimal, Pow10, CandidateOf, CandidatesFor, Derived, Wrote;
    AttachShape(db, env, id, lead, priority);
    var db', w := Attached(db, env, id, lead, priority), WrittenLead(db, id, lead);
    var inputs := RemergeInputs(db, w, Candidate(lead, Decimal(id), priority));
    if MergesUnclaimed(db, id, lead) {
      OwnersExist(db);
      SameRecordsSameCandidates(db, db', w);
      UnownedRecordIsAddedOnce(db, w, id);
    } else {
      RemergeUsesOwnedRecords(db, w, id, db');
      WrittenIsDerived(db', env, w, inputs);
    }
  }

  lemma SameRecordsSameCandidates(db: Db, db': Db, leadId: nat)
    requires db'.records == db.records && db'.sources == db.sources
    ensures CandidatesFor(db', leadId) == CandidatesFor(db, leadId)
  {
  }

  lemma {:induction false} NothingToDrop(cands: seq<Candidate>, origin: string)
    requires forall c :: c in cands ==> c.origin != origin
    ensures WithoutOrigin(cands, origin) == cands
  {
    if cands != [] {
      assert cands == [cands[0]] + cands[1..];
      NothingToDrop(cands[1..], origin);
    }
  }

  lemma UnownedRecordIsAddedOnce(db: Db, leadId: nat, id: nat)
    requires Numbered(db.records) && id in db.records.rows && db.records.rows[id].lead != Some(leadId)
    ensures WithoutOrigin(CandidatesFor(db, leadId), Decimal(id)) == CandidatesFor(db, leadId)
  {
    hide CandidatesFor, Decimal;
    forall c | c in CandidatesFor(db, leadId) ensures c.origin != Decimal(id) {
      CandidatesAreOwnedRecords(db, leadId, c);
      var i :| IsCandidate(db, leadId, i, c);
      if Decimal(i) == Decimal(id) { DecimalInjective(i, id); }
    }
    NothingToDrop(CandidatesFor(db, leadId), Decimal(id));
  }

  // ---- one ingest, and whole histories ----

  lemma ReviewKeepsRows(db: Db, id: nat, best: Option<Found>)
    ensures var db' := Reviewed(db, id, best);
      db'.records == db.records && db'.leads == db.leads && db'.sources == db.sources
  {
  }

  ghost predicate AllDerived(db: Db, env: Env) {
    forall leadId :: leadId in db.leads.rows ==> Derived(db, env, leadId)
  }

  /** A lead whose row and records did not change is as derived as before. */
  lemma {:induction false} UntouchedStaysDerived(db: Db, env: Env, db': Db, leadId: nat)
    requires Derived(db, env, leadId) && Numbered(db.records) && Numbered(db'.records) &&
      db'.records.next <= Pow10(WIDTH)
    requires leadId in db'.leads.rows && db'.leads.rows[leadId] == db.leads.rows[leadId]
    requires forall id, c :: IsCandidate(db, leadId, id, c) <==> IsCandidate(db', leadId, id, c)
    ensures Derived(db', env, leadId)
  {
    hide MergeOf, LeadRowOf, CandidatesFor, IsCandidate, Pow10;
    forall c ensures c in CandidatesFor(db, leadId) <==> c in CandidatesFor(db', leadId) {
      CandidatesAreOwnedRecords(db, leadId, c);
      CandidatesAreOwnedRecords(db', leadId, c);
    }
    WrittenIsDerived(db', env, leadId, CandidatesFor(db, leadId));
  }

  lemma UpsertTouchesOne(db: Db, env: Env, sourceId: nat, lead: NormalizedLead)
    requires Consistent(db)
    ensures var db1, id := Upsert(db, env, sourceId, lead), UpsertId(db, env, sourceId, lead);
      Owner(db1, id) == Owner(db, id) && db1.records.next >= db.records.next &&
      (forall i :: i != id ==> (i in db1.records.rows <==> i in db.records.rows)) &&
      (forall i :: i != id && i in db.records.rows ==> db1.records.rows[i] == db.records.rows[i])
  {
    hide RecordRow, ByKey, Consistent;
    UpsertKeepsConsistent(db, env, sourceId, lead);
    RecordRowOwner(env, sourceId, lead, Owner(db, UpsertId(db, env, sourceId, lead)));
  }

  lemma RecordRowOwner(env: Env, sourceId: nat, lead: NormalizedLead, owner: Option<nat>)
    ensures RecordRow(env, sourceId, lead, owner).lead == owner
  {
    hide Fingerprint.FingerprintsOf, ValidateLead;
  }

  lemma OwnedMergeMoves(db: Db, id: nat, lead: NormalizedLead)
    requires Consistent(db) && id in db.records.rows
    requires MergesInto(BestFor(db, id, lead)) ==> OwnLead(db, id).None?
    ensures !MergesUnclaimed(db, id, lead)
  {
    hide Keyed, Solid, BestFor;
  }

  lemma NumberedRecords(db: Db)
    requires Consistent(db)
    ensures Numbered(db.records)
  {
  }

  /**
   * After every stored item that creates a lead, refreshes the record's own lead, or merges where there was no
   * link yet, the record belongs to the written lead and that lead is the merge of exactly its records.
   */
  lemma IngestDerives(db: Db, env: Env, run: Run, item: Item)
    requires item.Incoming? && !Dropped(run, item) && item.fault != Unlinked
    requires Sound(db) && FromSource(db, run, item.lead) && db.records.next < Pow10(WIDTH)
    requires var db1, id := Upsert(db, env, run.sourceId, item.lead), UpsertId(db, env, run.sourceId, item.lead);
      !MergesUnclaimed(db1, id, item.lead)
    ensures var db1, id := Upsert(db, env, run.sourceId, item.lead), UpsertId(db, env, run.sourceId, item.lead);
      var db', w := ItemDb(db, env, run, item), WrittenLead(db1, id, item.lead);
      Owner(db', id) == Some(w) && Derived(db', env, w)
  {
    hide Upsert, UpsertId, Attached, BestFor, MergeOf, LeadRowOf, Decimal, Pow10, MergesUnclaimed, ItemDb, Dropped,
      CandidatesFor;
    UpsertStoresIncoming(db, env, run, item.lead);
    var db1, id := Upsert(db, env, run.sourceId, item.lead), UpsertId(db, env, run.sourceId, item.lead);
    AttachDerives(db1, env, id, item.lead, run.priority);
    StoredItemRows(db, env, run, item);
    var db2, db', w := Attached(db1, env, id, item.lead, run.priority), ItemDb(db, env, run, item),
      WrittenLead(db1, id, item.lead);
    SameRowsSameWrote(db2, db', env, w, CandidatesFor(db2, w));
    SameRecordsSameCandidates(db2, db', w);
  }

  lemma SameRowsSameWrote(db: Db, db': Db, env: Env, leadId: nat, inputs: seq<Candidate>)
    requires leadId in db.leads.rows && leadId in db'.leads.rows && db'.leads.rows[leadId] == db.leads.rows[leadId]
    ensures Wrote(db', env, leadId, inputs) <==> Wrote(db, env, leadId, inputs)
  {
  }

  // ---- exactly which ingests let a lead fall behind ----

  /** Inputs with the same members write the same row, as long as they are records. */
  lemma SameMembersSameWrote(db: Db, env: Env, leadId: nat, a: seq<Candidate>, b: seq<Candidate>)
    requires Numbered(db.records) && db.records.next <= Pow10(WIDTH) && FromRecords(db, a) && SameMembers(a, b)
    ensures Wrote(db, env, leadId, a) <==> Wrote(db, env, leadId, b)
  {
    hide MergeOf, LeadRowOf, Pow10, FromRecords;
    assert a != [] ==> a[0] in b;
    assert b != [] ==> b[0] in a;
    if a != [] && b != [] {
      RecordsNeverTie(db, a);
      MergeOfMembers(a, b);
    }
  }

  /** What is left of a lead's candidates after one of its records has gone to another lead. */
  lemma LosingARecord(db: Db, db': Db, leadId: nat, id: nat, newOwner: nat)
    requires Numbered(db.records) && id in db.records.rows && newOwner != leadId
    requires db'.sources == db.sources && db'.records.next == db.records.next
    requires db'.records.rows == db.records.rows[id := db.records.rows[id].(lead := Some(newOwner))]
    ensures SameMembers(CandidatesFor(db', leadId), WithoutOrigin(CandidatesFor(db, leadId), Decimal(id)))
  {
    hide Decimal, CandidatesFor, WithoutOrigin;
    forall c ensures c in CandidatesFor(db', leadId) <==> c in WithoutOrigin(CandidatesFor(db, leadId), Decimal(id)) {
      CandidatesAreOwnedRecords(db, leadId, c);
      CandidatesAreOwnedRecords(db', leadId, c);
      WithoutOriginMembers(CandidatesFor(db, leadId), Decimal(id), c);
      if c in CandidatesFor(db', leadId) {
        var i :| IsCandidate(db', leadId, i, c);
        assert IsCandidate(db, leadId, i, c);
        if Decimal(i) == Decimal(id) { DecimalInjective(i, id); }
      }
      if c in WithoutOrigin(CandidatesFor(db, leadId), Decimal(id)) {
        var i :| IsCandidate(db, leadId, i, c);
        assert IsCandidate(db', leadId, i, c);
      }
    }
  }

  /** The owner of the record aside, whose data has just been replaced, every lead is derived. */
  ghost predicate OthersDerived(db: Db, env: Env, id: nat) {
    forall l :: l in db.leads.rows && OwnLead(db, id) != Some(l) ==> Derived(db, env, l)
  }

  /**
   * What a stored record must meet for no lead to fall behind when it is attached. Only an owned record that
   * merges into another lead can fail. If it moves there, the lead it leaves must already read as the merge of
   * its other records. If it stays because an old link exists, its owner must already read as the merge with the
   * record's new data, and the lead it merges into must not be changed by it.
   */
  ghost predicate KeepsUp(db: Db, env: Env, id: nat, lead: NormalizedLead, priority: int) {
    var best, own := BestFor(db, id, lead), OwnLead(db, id);
    MergesInto(best) && own.Some? ==>
      if MergesUnclaimed(db, id, lead) then
        Derived(db, env, own.value) &&
        Wrote(db, env, best.value.id, CandidatesFor(db, best.value.id) + [Candidate(lead, Decimal(id), priority)])
      else Wrote(db, env, own.value, WithoutOrigin(CandidatesFor(db, own.value), Decimal(id)))
  }

  lemma BystanderStaysDerived(db: Db, env: Env, id: nat, lead: NormalizedLead, priority: int, leadId: nat)
    requires Ready(db, id, lead, priority) && OthersDerived(db, env, id)
    requires leadId != WrittenLead(db, id, lead) && OwnLead(db, id) != Some(leadId)
    requires leadId in Attached(db, env, id, lead, priority).leads.rows
    ensures Derived(Attached(db, env, id, lead, priority), env, leadId)
  {
    hide MergeOf, LeadRowOf, BestFor, Attached, Decimal, Pow10, CandidateOf, Derived, Consistent, Wrote,
      MergesUnclaimed, MergesInto;
    AttachShape(db, env, id, lead, priority);
    OwnersExist(db);
    NumberedRecords(db);
    var db' := Attached(db, env, id, lead, priority);
    forall i, c ensures IsCandidate(db, leadId, i, c) <==> IsCandidate(db', leadId, i, c) {
    }
    UntouchedStaysDerived(db, env, db', leadId);
  }

  /** A record that moves leaves its old lead derived exactly when the other records already make up its row. */
  lemma MoveKeepsUp(db: Db, env: Env, id: nat, lead: NormalizedLead, priority: int)
    requires Ready(db, id, lead, priority) && OwnLead(db, id).Some?
    requires MergesInto(BestFor(db, id, lead)) && !MergesUnclaimed(db, id, lead)
    ensures Derived(Attached(db, env, id, lead, priority), env, OwnLead(db, id).value) <==>
      KeepsUp(db, env, id, lead, priority)
  {
    hide MergeOf, RemergeInputs, LeadRowOf, BestFor, CandidateOf, Decimal, Pow10, Attached, Consistent, Wrote,
      MergesUnclaimed, CandidatesFor;
    AttachShape(db, env, id, lead, priority);
    NumberedRecords(db);
    var db', own := Attached(db, env, id, lead, priority), OwnLead(db, id).value;
    LosingARecord(db, db', own, id, WrittenLead(db, id, lead));
    CandidatesFromRecords(db', own);
    SameMembersSameWrote(db', env, own, CandidatesFor(db', own), WithoutOrigin(CandidatesFor(db, own), Decimal(id)));
    SameRowsSameWrote(db, db', env, own, WithoutOrigin(CandidatesFor(db, own), Decimal(id)));
  }

  /** A row that is rewritten in place is the merge of `inputs` exactly when it already was, if it is not changed. */
  lemma RewrittenRow(db: Db, db': Db, env: Env, leadId: nat, inputs: seq<Candidate>, written: seq<Candidate>)
    requires leadId in db.leads.rows && Wrote(db, env, leadId, inputs) && Wrote(db', env, leadId, written)
    requires db'.leads.rows[leadId].firstSeen == db.leads.rows[leadId].firstSeen
    ensures Wrote(db', env, leadId, inputs) <==> Wrote(db, env, leadId, written)
  {
    hide MergeOf;
  }

  /** The same for a record that merges into a lead without being claimed by it. */
  lemma UnclaimedMergeKeepsUp(db: Db, env: Env, id: nat, lead: NormalizedLead, priority: int)
    requires Ready(db, id, lead, priority) && OthersDerived(db, env, id) && OwnLead(db, id).Some?
    requires MergesUnclaimed(db, id, lead)
    ensures var db' := Attached(db, env, id, lead, priority);
      Derived(db', env, OwnLead(db, id).value) && Derived(db', env, WrittenLead(db, id, lead))
      <==> KeepsUp(db, env, id, lead, priority)
  {
    hide MergeOf, RemergeInputs, LeadRowOf, BestFor, CandidateOf, Decimal, Pow10, Attached, Consistent, Wrote,
      CandidatesFor;
    AttachShape(db, env, id, lead, priority);
    AttachDerives(db, env, id, lead, priority);
    var db', own, w := Attached(db, env, id, lead, priority), OwnLead(db, id).value, WrittenLead(db, id, lead);
    var incoming := Candidate(lead, Decimal(id), priority);
    SameRecordsSameCandidates(db, db', own);
    SameRecordsSameCandidates(db, db', w);
    SameRowsSameWrote(db, db', env, own, CandidatesFor(db, own));
    RewrittenRow(db, db', env, w, CandidatesFor(db, w), CandidatesFor(db, w) + [incoming]);
  }

  lemma SettledKeepsUp(db: Db, env: Env, id: nat, lead: NormalizedLead, priority: int)
    requires MergesInto(BestFor(db, id, lead)) ==> OwnLead(db, id).None?
    ensures KeepsUp(db, env, id, lead, priority)
  {
  }

  /** Attaching a record leaves every lead the merge of its records exactly when the record keeps up. */
  lemma AttachKeepsLeadsDerivedExactly(db: Db, env: Env, id: nat, lead: NormalizedLead, priority: int)
    requires Ready(db, id, lead, priority) && OthersDerived(db, env, id)
    ensures AllDerived(Attached(db, env, id, lead, priority), env) <==> KeepsUp(db, env, id, lead, priority)
  {
    hide Attached, BestFor, Derived, Decimal, Pow10, Consistent, MergeOf, LeadRowOf, CandidateOf, CandidatesFor,
      OthersDerived, KeepsUp;
    var db', own, w := Attached(db, env, id, lead, priority), OwnLead(db, id), WrittenLead(db, id, lead);
    AttachShape(db, env, id, lead, priority);
    AttachDerives(db, env, id, lead, priority);
    forall l | l in db'.leads.rows && l != w && own != Some(l) ensures Derived(db', env, l) {
      BystanderStaysDerived(db, env, id, lead, priority, l);
    }
    if MergesInto(BestFor(db, id, lead)) && own.Some? {
      assert own.value in db'.leads.rows;
      if MergesUnclaimed(db, id, lead) {
        UnclaimedMergeKeepsUp(db, env, id, lead, priority);
      } else {
        MoveKeepsUp(db, env, id, lead, priority);
      }
    } else {
      OwnedMergeMoves(db, id, lead);
      SettledKeepsUp(db, env, id, lead, priority);
    }
  }

  /** Items that leave the tables alone: unreadable, ungraded, suppressed or not stored. */
  predicate Dropped(run: Run, item: Item)
    requires item.Incoming?
  {
    item.fault in {Unreadable, Ungraded, Unstored} || Suppressions.Blocks(run.blocked, item.lead).Some?
  }

  lemma DroppedChangesNothing(db: Db, env: Env, run: Run, item: Item)
    requires item.Incoming? && Dropped(run, item)
    ensures ItemDb(db, env, run, item) == db
  {
    hide Upsert, UpsertId, AfterStored, Suppressions.Blocks, Raises, Graded;
  }

  /** Apart from links, a stored item does what attaching its record does. */
  lemma StoredItemRows(db: Db, env: Env, run: Run, item: Item)
    requires item.Incoming? && !Dropped(run, item) && item.fault != Unlinked
    ensures var db1, id := Upsert(db, env, run.sourceId, item.lead), UpsertId(db, env, run.sourceId, item.lead);
      var db2, db' := Attached(db1, env, id, item.lead, run.priority), ItemDb(db, env, run, item);
      db'.records == db2.records && db'.leads == db2.leads && db'.sources == db2.sources
  {
    hide Upsert, UpsertId, Attached, AttachedCount, BestFor, Suppressions.Blocks, Raises, Graded, Reviewed;
    var db1, id := Upsert(db, env, run.sourceId, item.lead), UpsertId(db, env, run.sourceId, item.lead);
    ReviewKeepsRows(Attached(db1, env, id, item.lead, run.priority), id, BestFor(db1, id, item.lead));
  }

  /** Derivation speaks of records, leads and sources only. */
  lemma SameRowsSameDerived(db: Db, db': Db, env: Env)
    requires db'.records == db.records && db'.leads == db.leads && db'.sources == db.sources
    ensures AllDerived(db, env) <==> AllDerived(db', env)
  {
    hide CandidatesFor, MergeOf, LeadRowOf;
    forall leadId: nat ensures CandidatesFor(db', leadId) == CandidatesFor(db, leadId) {
      SameRecordsSameCandidates(db, db', leadId);
    }
  }

  lemma EraseKeepsDerived(db: Db, env: Env, leadId: nat)
    requires Sound(db) && AllDerived(db, env)
    ensures AllDerived(Deleted(db, leadId), env)
  {
    hide Derived, Pow10, CandidateOf, Keyed, Solid;
    DeleteKeepsConsistent(db, leadId);
    var db' := Deleted(db, leadId);
    forall l | l in db'.leads.rows ensures Derived(db', env, l) {
      forall i, c ensures IsCandidate(db, l, i, c) <==> IsCandidate(db', l, i, c) {
      }
      UntouchedStaysDerived(db, env, db', l);
    }
  }

  /** New names and priorities of the sources leave the records of every single lead in the same order. */
  ghost predicate KeepsPriorityOrder(db: Db, sources: map<nat, Source>) {
    forall i, j | i in db.records.rows && j in db.records.rows && db.records.rows[i].lead.Some? &&
      db.records.rows[i].lead == db.records.rows[j].lead ::
      var a, b := db.records.rows[i].sourceId, db.records.rows[j].sourceId;
      a in db.sources && b in db.sources && a in sources && b in sources ==>
        (db.sources[a].priority < db.sources[b].priority <==> sources[a].priority < sources[b].priority)
  }

  lemma OwnedIdsAreOwned(db: Db, leadId: nat)
    ensures |CandidatesFor(db, leadId)| == |OwnedIds(db, leadId)|
    ensures forall i :: 0 <= i < |OwnedIds(db, leadId)| ==>
      var id := OwnedIds(db, leadId)[i];
      id in db.records.rows && db.records.rows[id].lead == Some(leadId) && db.records.rows[id].sourceId in db.sources &&
      CandidatesFor(db, leadId)[i] == CandidateOf(db.sources, id, db.records.rows[id])
  {
    hide CandidateOf;
    var where := (id: nat, r: Record) => r.lead == Some(leadId) && r.sourceId in db.sources;
    IdsAscend(db.records.rows, where, 1, db.records.next);
    var ids := OwnedIds(db, leadId);
    assert forall i :: 0 <= i < |ids| ==> ids[i] in ids;
  }

  lemma ReconfiguredIds(db: Db, sources: map<nat, Source>, leadId: nat)
    requires SourcesKnown(db) && db.sources.Keys <= sources.Keys
    ensures OwnedIds(db.(sources := sources), leadId) == OwnedIds(db, leadId)
  {
    var where := (id: nat, r: Record) => r.lead == Some(leadId) && r.sourceId in db.sources;
    var where' := (id: nat, r: Record) => r.lead == Some(leadId) && r.sourceId in sources;
    IdsAscend(db.records.rows, where, 1, db.records.next);
    IdsAscend(db.records.rows, where', 1, db.records.next);
    AscendingUnique(OwnedIds(db, leadId), OwnedIds(db.(sources := sources), leadId));
  }

  lemma ReconfiguredCandidates(db: Db, sources: map<nat, Source>, leadId: nat)
    requires SourcesKnown(db) && db.sources.Keys <= sources.Keys && KeepsPriorityOrder(db, sources)
    ensures Alike(CandidatesFor(db, leadId), CandidatesFor(db.(sources := sources), leadId))
  {
    hide Decimal, CandidatesFor, OwnedIds;
    var db' := db.(sources := sources);
    OwnedIdsAreOwned(db, leadId);
    OwnedIdsAreOwned(db', leadId);
    ReconfiguredIds(db, sources, leadId);
    var ids := OwnedIds(db, leadId);
    var a, b := CandidatesFor(db, leadId), CandidatesFor(db', leadId);
    forall i, j | 0 <= i < |a| && 0 <= j < |a|
      ensures a[i].priority < a[j].priority <==> b[i].priority < b[j].priority
    {
      assert db.records.rows[ids[i]].lead == db.records.rows[ids[j]].lead;
    }
  }

  /** Inputs that merge to the same columns, extras and time write the same row. */
  lemma AlikeWrote(db: Db, db': Db, env: Env, leadId: nat, a: seq<Candidate>, b: seq<Candidate>)
    requires Alike(a, b) && db'.leads == db.leads && Wrote(db, env, leadId, a)
    ensures Wrote(db', env, leadId, b)
  {
    hide MergeOf, Alike, Fingerprint.CompanySlug, Fingerprint.LocationKey, Grade;
    assert |a| == |b| by { AlikeLengths(a, b); }
    AlikeMerge(a, b);
  }

  lemma AlikeLengths(a: seq<Candidate>, b: seq<Candidate>)
    requires Alike(a, b)
    ensures |a| == |b|
  {
  }

  /**
   * A source may be renamed and given any priority that keeps the order in which the records of each lead rank by
   * source: every lead stays the merge of its records without being rewritten.
   */
  lemma SamePriorityOrderKeepsDerived(db: Db, env: Env, sources: map<nat, Source>)
    requires Sound(db) && AllDerived(db, env) && db.sources.Keys <= sources.Keys && KeepsPriorityOrder(db, sources)
    ensures AllDerived(db.(sources := sources), env)
  {
    hide Pow10, Consistent, KeepsPriorityOrder, CandidatesFor, Wrote;
    var db' := db.(sources := sources);
    forall l | l in db'.leads.rows ensures Derived(db', env, l) {
      ReconfiguredCandidates(db, sources, l);
      AlikeWrote(db, db', env, l, CandidatesFor(db, l), CandidatesFor(db', l));
    }
  }

  /** Leads whose records all come from one source stay derived whatever happens to the priorities. */
  lemma OneSourceLeadsIgnorePriority(db: Db, env: Env, sourceId: nat, source: Source)
    requires Sound(db) && AllDerived(db, env)
    requires forall i, j | i in db.records.rows && j in db.records.rows && db.records.rows[i].lead.Some? &&
      db.records.rows[i].lead == db.records.rows[j].lead :: db.records.rows[i].sourceId == db.records.rows[j].sourceId
    ensures AllDerived(db.(sources := db.sources[sourceId := source]), env)
  {
    hide AllDerived, Consistent, Pow10;
    SamePriorityOrderKeepsDerived(db, env, db.sources[sourceId := source]);
  }

  lemma UpsertLeavesOthersDerived(db: Db, env: Env, run: Run, lead: NormalizedLead)
    requires Sound(db) && FromSource(db, run, lead) && db.records.next < Pow10(WIDTH) && AllDerived(db, env)
    ensures var db1, id := Upsert(db, env, run.sourceId, lead), UpsertId(db, env, run.sourceId, lead);
      Ready(db1, id, lead, run.priority) && OthersDerived(db1, env, id)
  {
    hide Upsert, UpsertId, Derived, Decimal, Pow10, Consistent, CandidateOf;
    UpsertStoresIncoming(db, env, run, lead);
    UpsertTouchesOne(db, env, run.sourceId, lead);
    UpsertKeepsConsistent(db, env, run.sourceId, lead);
    var db1, id := Upsert(db, env, run.sourceId, lead), UpsertId(db, env, run.sourceId, lead);
    OwnersExist(db1);
    NumberedRecords(db);
    NumberedRecords(db1);
    forall l | l in db1.leads.rows && OwnLead(db1, id) != Some(l) ensures Derived(db1, env, l) {
      forall i, c ensures IsCandidate(db, l, i, c) <==> IsCandidate(db1, l, i, c) {
        if i != id {
          assert i in db1.records.rows <==> i in db.records.rows;
        }
      }
      UntouchedStaysDerived(db, env, db1, l);
    }
  }

  // ---- whole items, and whole histories ----

  /** Priorities keep the order of each lead's records, stored items come from their source, and ids stay short. */
  ghost predicate Regular(db: Db, event: Event) {
    match event
    case Erase(_) => true
    case Configure(sourceId, source) => KeepsPriorityOrder(db, db.sources[sourceId := source])
    case Process(run, item) =>
      item.Rejected? || Dropped(run, item) || (FromSource(db, run, item.lead) && db.records.next < Pow10(WIDTH))
  }

  /**
   * What an event must meet for no lead to fall behind. If the ingest raises before the record is attached, the
   * owner's row must already read as the merge with the record's new data.
   */
  ghost predicate EventKeepsUp(db: Db, env: Env, event: Event) {
    event.Process? && event.item.Incoming? && !Dropped(event.run, event.item) ==>
      var run, item := event.run, event.item;
      var db1, id := Upsert(db, env, run.sourceId, item.lead), UpsertId(db, env, run.sourceId, item.lead);
      if item.fault == Unlinked then
        OwnLead(db, id).Some? ==>
          var own := OwnLead(db, id).value;
          Wrote(db, env, own, RemergeInputs(db, own, Candidate(item.lead, Decimal(id), run.priority)))
      else KeepsUp(db1, env, id, item.lead, run.priority)
  }

  lemma UnlinkedItemStoresOnly(db: Db, env: Env, run: Run, item: Item)
    requires item.Incoming? && !Dropped(run, item) && item.fault == Unlinked
    ensures ItemDb(db, env, run, item) == Upsert(db, env, run.sourceId, item.lead)
  {
    hide Upsert, UpsertId, AfterStored, Suppressions.Blocks, Raises, Graded;
  }

  /** Once a record's data has been replaced, its owner's candidates are what a re-merge would use. */
  lemma UpsertedCandidates(db: Db, db1: Db, id: nat, leadId: nat, incoming: Candidate)
    requires Numbered(db.records) && Numbered(db1.records) && db1.sources == db.sources
    requires id in db1.records.rows && StandsFor(db1, id, incoming) && db1.records.rows[id].lead == Some(leadId)
    requires forall i :: i != id ==> (i in db1.records.rows <==> i in db.records.rows)
    requires forall i :: i != id && i in db.records.rows ==> db1.records.rows[i] == db.records.rows[i]
    ensures SameMembers(CandidatesFor(db1, leadId), RemergeInputs(db, leadId, incoming))
  {
    hide Decimal, CandidatesFor, WithoutOrigin;
    forall c ensures c in CandidatesFor(db1, leadId) <==> c in RemergeInputs(db, leadId, incoming) {
      CandidatesAreOwnedRecords(db, leadId, c);
      CandidatesAreOwnedRecords(db1, leadId, c);
      WithoutOriginMembers(CandidatesFor(db, leadId), incoming.origin, c);
      if c in CandidatesFor(db1, leadId) {
        var i :| IsCandidate(db1, leadId, i, c);
        if i != id {
          assert IsCandidate(db, leadId, i, c);
          if Decimal(i) == Decimal(id) { DecimalInjective(i, id); }
        }
      }
      if c in RemergeInputs(db, leadId, incoming) {
        if c == incoming {
          assert IsCandidate(db1, leadId, id, c);
        } else {
          var i :| IsCandidate(db, leadId, i, c);
          assert IsCandidate(db1, leadId, i, c);
        }
      }
    }
  }

  /** A record that is stored but not attached leaves its owner derived exactly when the owner's row suits it. */
  lemma UnattachedKeepsUp(db: Db, env: Env, run: Run, lead: NormalizedLead)
    requires Sound(db) && FromSource(db, run, lead) && db.records.next < Pow10(WIDTH)
    ensures var db1, id := Upsert(db, env, run.sourceId, lead), UpsertId(db, env, run.sourceId, lead);
      OwnLead(db1, id) == OwnLead(db, id) &&
      (OwnLead(db, id).Some? ==>
        var own := OwnLead(db, id).value;
        Derived(db1, env, own) <==>
          Wrote(db, env, own, RemergeInputs(db, own, Candidate(lead, Decimal(id), run.priority))))
  {
    hide Upsert, UpsertId, Decimal, Pow10, Consistent, CandidateOf, CandidatesFor, RemergeInputs, Wrote;
    UpsertStoresIncoming(db, env, run, lead);
    UpsertTouchesOne(db, env, run.sourceId, lead);
    UpsertKeepsConsistent(db, env, run.sourceId, lead);
    var db1, id := Upsert(db, env, run.sourceId, lead), UpsertId(db, env, run.sourceId, lead);
    NumberedRecords(db);
    NumberedRecords(db1);
    if OwnLead(db, id).Some? {
      var own, incoming := OwnLead(db, id).value, Candidate(lead, Decimal(id), run.priority);
      UpsertedCandidates(db, db1, id, own, incoming);
      CandidatesFromRecords(db1, own);
      SameMembersSameWrote(db1, env, own, CandidatesFor(db1, own), RemergeInputs(db, own, incoming));
      SameRowsSameWrote(db, db1, env, own, RemergeInputs(db, own, incoming));
    }
  }

  /**
   * The items that leave every lead the merge of its records are exactly those that keep up, for any store in
   * which this held before and wherever the item raises.
   */
  lemma ItemKeepsLeadsDerivedExactly(db: Db, env: Env, run: Run, item: Item)
    requires Sound(db) && AllDerived(db, env) && Regular(db, Process(run, item))
    ensures AllDerived(ItemDb(db, env, run, item), env) <==> EventKeepsUp(db, env, Process(run, item))
  {
    hide Upsert, UpsertId, Attached, Derived, Pow10, Consistent, Dropped, Wrote, KeepsUp, AfterItem, OwnLead;
    if item.Incoming? && !Dropped(run, item) {
      var db1, id := Upsert(db, env, run.sourceId, item.lead), UpsertId(db, env, run.sourceId, item.lead);
      UpsertLeavesOthersDerived(db, env, run, item.lead);
      if item.fault == Unlinked {
        UnlinkedItemStoresOnly(db, env, run, item);
        OwnLeadExists(db1, id);
        UnattachedKeepsUp(db, env, run, item.lead);
      } else {
        AttachKeepsLeadsDerivedExactly(db1, env, id, item.lead, run.priority);
        StoredItemRows(db, env, run, item);
        SameRowsSameDerived(Attached(db1, env, id, item.lead, run.priority), ItemDb(db, env, run, item), env);
      }
    } else if item.Incoming? {
      DroppedChangesNothing(db, env, run, item);
    } else {
      assert ItemDb(db, env, run, item) == db by { RejectedChangesNothing(db, env, run); }
    }
  }

  lemma OwnLeadExists(db: Db, id: nat)
    ensures OwnLead(db, id).Some? ==> OwnLead(db, id).value in db.leads.rows
  {
  }

  lemma RejectedChangesNothing(db: Db, env: Env, run: Run)
    ensures ItemDb(db, env, run, Rejected) == db
  {
  }

  /** A regular event keeps the store fit for the theorems, whether or not it keeps up. */
  lemma EventKeepsSound(db: Db, env: Env, event: Event)
    requires Sound(db) && Regular(db, event)
    ensures Sound(Exec1(db, env, event))
  {
    hide Upsert, UpsertId, Attached, Pow10, Consistent, Dropped, WrittenLead, Wrote, MergesUnclaimed, ItemDb;
    EventKeepsConsistent(db, env, event);
    if event.Process? && event.item.Incoming? {
      var run, item := event.run, event.item;
      if Dropped(run, item) {
        DroppedChangesNothing(db, env, run, item);
      } else {
        var db1, id := Upsert(db, env, run.sourceId, item.lead), UpsertId(db, env, run.sourceId, item.lead);
        UpsertStoresIncoming(db, env, run, item.lead);
        if item.fault == Unlinked {
          UnlinkedItemStoresOnly(db, env, run, item);
        } else {
          StoredItemRows(db, env, run, item);
          AttachShape(db1, env, id, item.lead, run.priority);
        }
      }
    } else if event.Process? {
      RejectedChangesNothing(db, env, event.run);
    }
  }

  lemma EventKeepsLeadsDerivedExactly(db: Db, env: Env, event: Event)
    requires Sound(db) && AllDerived(db, env) && Regular(db, event)
    ensures AllDerived(Exec1(db, env, event), env) <==> EventKeepsUp(db, env, event)
  {
    hide AllDerived, Consistent, ItemDb, Pow10, Dropped, KeepsUp, Upsert, UpsertId;
    match event
    case Erase(leadId) => EraseKeepsDerived(db, env, leadId);
    case Configure(sourceId, source) => SamePriorityOrderKeepsDerived(db, env, db.sources[sourceId := source]);
    case Process(run, item) => ItemKeepsLeadsDerivedExactly(db, env, run, item);
  }

  ghost predicate RegularHistory(env: Env, history: seq<Event>) {
    history == [] ||
    (RegularHistory(env, history[..|history| - 1]) &&
     Regular(Exec(EMPTY_STORE, env, history[..|history| - 1]), history[|history| - 1]))
  }

  ghost predicate HistoryKeepsUp(env: Env, history: seq<Event>) {
    history == [] ||
    (HistoryKeepsUp(env, history[..|history| - 1]) &&
     EventKeepsUp(Exec(EMPTY_STORE, env, history[..|history| - 1]), env, history[|history| - 1]))
  }

  /** After every event so far, every stored lead was the merge of exactly the records it owned. */
  ghost predicate DerivedThroughout(env: Env, history: seq<Event>) {
    forall k | 0 <= k <= |history| :: AllDerived(Exec(EMPTY_STORE, env, history[..k]), env)
  }

  lemma {:induction false} HistoryKeepsSound(env: Env, history: seq<Event>)
    requires RegularHistory(env, history)
    ensures Sound(Exec(EMPTY_STORE, env, history))
  {
    hide Sound, Regular, Exec1;
    if history == [] {
      Pow10Positive(WIDTH);
      assert Sound(EMPTY_STORE) by { EmptyIsSound(); }
    } else {
      HistoryKeepsSound(env, history[..|history| - 1]);
      EventKeepsSound(Exec(EMPTY_STORE, env, history[..|history| - 1]), env, history[|history| - 1]);
    }
  }

  lemma EmptyIsSound()
    ensures Sound(EMPTY_STORE)
  {
    Pow10Positive(WIDTH);
  }

  lemma ThroughoutUnfolds(env: Env, history: seq<Event>)
    requires history != []
    ensures DerivedThroughout(env, history) <==>
      DerivedThroughout(env, history[..|history| - 1]) && AllDerived(Exec(EMPTY_STORE, env, history), env)
  {
    hide AllDerived, Exec;
    var init := history[..|history| - 1];
    assert history[..|history|] == history;
    assert forall k :: 0 <= k < |history| ==> init[..k] == history[..k];
    if DerivedThroughout(env, history) {
      forall k | 0 <= k <= |init| ensures AllDerived(Exec(EMPTY_STORE, env, init[..k]), env) {
        assert init[..k] == history[..k];
      }
    }
    if DerivedThroughout(env, init) && AllDerived(Exec(EMPTY_STORE, env, history), env) {
      forall k | 0 <= k <= |history| ensures AllDerived(Exec(EMPTY_STORE, env, history[..k]), env) {
        if k < |history| {
          assert init[..k] == history[..k];
        }
      }
    }
  }

  /**
   * The histories throughout which every stored lead is the merge of exactly the records it owns are those
   * whose every event keeps up, whatever the order in which records arrived.
   */
  lemma {:induction false} LeadsAreDerivedExactlyWhenEventsKeepUp(env: Env, history: seq<Event>)
    requires RegularHistory(env, history)
    ensures DerivedThroughout(env, history) <==> HistoryKeepsUp(env, history)
  {
    hide AllDerived, Sound, EventKeepsUp, Regular, Exec1;
    if history == [] {
      NoLeadsAllDerived(env);
      assert forall k | 0 <= k <= |history| :: history[..k] == [];
    } else {
      var init, last := history[..|history| - 1], history[|history| - 1];
      LeadsAreDerivedExactlyWhenEventsKeepUp(env, init);
      ThroughoutUnfolds(env, history);
      HistoryKeepsSound(env, init);
      if DerivedThroughout(env, init) {
        assert init[..|init|] == init;
        EventKeepsLeadsDerivedExactly(Exec(EMPTY_STORE, env, init), env, last);
      }
    }
  }

  lemma NoLeadsAllDerived(env: Env)
    ensures AllDerived(EMPTY_STORE, env)
  {
  }

  /** An ingest that moves no owned record: it merges into another lead only a record that had none. */
  ghost predicate Settled(db: Db, env: Env, run: Run, lead: NormalizedLead) {
    var db1, id := Upsert(db, env, run.sourceId, lead), UpsertId(db, env, run.sourceId, lead);
    MergesInto(BestFor(db1, id, lead)) ==> OwnLead(db1, id).None?
  }

  ghost predicate Steady(env: Env, history: seq<Event>) {
    history == [] ||
    (Steady(env, history[..|history| - 1]) &&
     var event := history[|history| - 1];
     event.Process? && event.item.Incoming? && !Dropped(event.run, event.item) ==>
       event.item.fault != Unlinked &&
       Settled(Exec(EMPTY_STORE, env, history[..|history| - 1]), env, event.run, event.item.lead))
  }

  lemma {:induction false} SteadyKeepsUp(env: Env, history: seq<Event>)
    requires Steady(env, history)
    ensures HistoryKeepsUp(env, history)
  {
    hide Dropped, Exec, BestFor, MergesInto, Upsert, UpsertId, OwnLead;
    if history != [] {
      SteadyKeepsUp(env, history[..|history| - 1]);
    }
  }

  /**
   * In particular, as long as no owned record changes lead and no record is left unattached, every lead is the
   * merge of its records.
   */
  lemma {:induction false} SteadyHistoryDerivesEveryLead(env: Env, history: seq<Event>)
    requires RegularHistory(env, history) && Steady(env, history)
    ensures AllDerived(Exec(EMPTY_STORE, env, history), env)
  {
    hide AllDerived, Exec, Steady, HistoryKeepsUp, RegularHistory;
    SteadyKeepsUp(env, history);
    LeadsAreDerivedExactlyWhenEventsKeepUp(env, history);
    assert history[..|history|] == history;
  }

  // ---- what a move leaves behind ----

  /**
   * When an owned record merges into another lead, its old lead is left as it was: still stored, still
   * carrying the record's data, and, if that was its only record, no longer the merge of anything.
   */
  lemma MovingStrandsTheOldLead(db: Db, env: Env, id: nat, lead: NormalizedLead, priority: int, oldLead: nat)
    requires Ready(db, id, lead, priority) && OwnLead(db, id) == Some(oldLead)
    requires MergesInto(BestFor(db, id, lead)) && !MergesUnclaimed(db, id, lead)
    ensures var db' := Attached(db, env, id, lead, priority);
      Owner(db', id) != Some(oldLead) && oldLead in db'.leads.rows &&
      db'.leads.rows[oldLead] == db.leads.rows[oldLead] &&
      (OwnedIds(db, oldLead) == [id] ==> OwnedIds(db', oldLead) == [] && !Derived(db', env, oldLead))
  {
    hide MergeOf, RemergeInputs, LeadRowOf, BestFor, CandidateOf, Decimal, Pow10, Attached, Consistent, Wrote,
      MergesUnclaimed;
    AttachShape(db, env, id, lead, priority);
    NumberedRecords(db);
    var db' := Attached(db, env, id, lead, priority);
    assert WrittenLead(db, id, lead) != oldLead;
    if OwnedIds(db, oldLead) == [id] {
      LosesOnlyRecord(db, db', id, oldLead, WrittenLead(db, id, lead));
      assert CandidatesFor(db', oldLead) == [];
      assert !Wrote(db', env, oldLead, []) by { NothingWrites(db', env, oldLead); }
    }
  }

  lemma NothingWrites(db: Db, env: Env, leadId: nat)
    ensures !Wrote(db, env, leadId, [])
  {
  }

  lemma LosesOnlyRecord(db: Db, db': Db, id: nat, leadId: nat, newOwner: nat)
    requires Numbered(db.records) && id in db.records.rows && OwnedIds(db, leadId) == [id] && newOwner != leadId
    requires db'.sources == db.sources && db'.records.next == db.records.next
    requires db'.records.rows == db.records.rows[id := db.records.rows[id].(lead := Some(newOwner))]
    ensures OwnedIds(db', leadId) == []
  {
    var where := (i: nat, r: Record) => r.lead == Some(leadId) && r.sourceId in db.sources;
    IdsAscend(db.records.rows, where, 1, db.records.next);
    IdsAscend(db'.records.rows, where, 1, db'.records.next);
    var ids := OwnedIds(db', leadId);
    assert ids != [] ==> ids[0] in ids;
    forall x ensures x !in ids {
      assert x in OwnedIds(db, leadId) <==> x == id;
    }
  }

  /** For a record that is all its lead has, moving it is exactly what breaks the derivation. */
  lemma SoleRecordStaysDerivedExactlyWhenSettled(db: Db, env: Env, run: Run, lead: NormalizedLead)
    requires Sound(db) && FromSource(db, run, lead) && db.records.next < Pow10(WIDTH) && AllDerived(db, env)
    requires var db1, id := Upsert(db, env, run.sourceId, lead), UpsertId(db, env, run.sourceId, lead);
      !MergesUnclaimed(db1, id, lead) && (OwnLead(db1, id).Some? ==> OwnedIds(db1, OwnLead(db1, id).value) == [id])
    ensures var db1, id := Upsert(db, env, run.sourceId, lead), UpsertId(db, env, run.sourceId, lead);
      AllDerived(Attached(db1, env, id, lead, run.priority), env) <==> Settled(db, env, run, lead)
  {
    hide Upsert, UpsertId, Attached, BestFor, Derived, Decimal, Pow10, MergesUnclaimed, Consistent, OwnedIds, OwnLead,
      AllDerived;
    UpsertLeavesOthersDerived(db, env, run, lead);
    var db1, id := Upsert(db, env, run.sourceId, lead), UpsertId(db, env, run.sourceId, lead);
    AttachKeepsLeadsDerivedExactly(db1, env, id, lead, run.priority);
    if OwnLead(db1, id).Some? {
      assert WithoutOrigin(CandidatesFor(db1, OwnLead(db1, id).value), Decimal(id)) == [];
    }
  }
}
