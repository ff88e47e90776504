/**
 * The three tables behind ingestion and the operations on them
 * (app/repositories/leads.py, app/repositories/records.py), first as functions on a table state,
 * then as the class whose methods update that state in place.
 */
module Store {
  import opened Text
  import opened Domain
  import opened OriginKeys
  import opened Fingerprint
  import opened Matching
  import opened Merging
  import opened Tables

  datatype Source = Source(name: string, priority: int)

  datatype Record = Record(
    sourceId: nat, key: string, lead: Option<nat>,
    externalId: Option<string>, sourceUrl: Option<string>, normalized: Payload, fp: Fingerprints,
    status: ValidationStatus, collectedAt: int)

  datatype LeadRow = LeadRow(
    values: map<Field, string>, extra: map<string, Option<string>>,
    nameSlug: Option<string>, locationKey: Option<string>, status: ValidationStatus,
    firstSeen: int, lastSeen: int)

  datatype LinkRule = Initial | Matched(rule: MatchRule)

  datatype Link = Link(rule: LinkRule, confidence: real, needsReview: bool)

  datatype Db = Db(
    sources: map<nat, Source>, records: Table<Record>, leads: Table<LeadRow>, links: map<(nat, nat), Link>)

  /** Deterministic library code: the digest of a payload, and the syntax checks of single fields. */
  datatype Env = Env(digest: Payload -> string, emailOk: string -> bool, urlOk: string -> bool, phoneOk: string -> bool)

  function Grade(value: Option<string>, ok: string -> bool): ValidationStatus {
    if value.None? then Unknown else if ok(value.value) then Valid else Invalid
  }

  /** A name is required, no contact may be malformed, and at least one contact must be present. */
  function ValidateLead(env: Env, lead: NormalizedLead): ValidationStatus {
    var email, url, phone :=
      Grade(lead.Get(Email), env.emailOk), Grade(lead.Get(Website), env.urlOk), Grade(lead.Get(Phone), env.phoneOk);
    if lead.Get(CompanyName).None? || email == Invalid || url == Invalid || phone == Invalid then Invalid
    else if email == Unknown && url == Unknown && phone == Unknown then Unknown
    else Valid
  }

  // ---- source records ----

  function RecordKey(env: Env, lead: NormalizedLead): string {
    if Truthy(lead.ExternalId()) then lead.ExternalId().value else env.digest(lead.payload)
  }

  function ByKey(records: Table<Record>, sourceId: nat, key: string): Option<nat> {
    var ids := Ids(records.rows, (id: nat, r: Record) => r.sourceId == sourceId && r.key == key, 1, records.next);
    if ids == [] then None else Some(ids[0])
  }

  function UpsertId(db: Db, env: Env, sourceId: nat, lead: NormalizedLead): nat {
    var found := ByKey(db.records, sourceId, RecordKey(env, lead));
    if found.Some? then found.value else db.records.next
  }

  function Owner(db: Db, id: nat): Option<nat> {
    if id in db.records.rows then db.records.rows[id].lead else None
  }

  function RecordRow(env: Env, sourceId: nat, lead: NormalizedLead, owner: Option<nat>): Record {
    Record(sourceId, RecordKey(env, lead), owner, lead.ExternalId(), lead.source.url, lead.payload,
           FingerprintsOf(lead), ValidateLead(env, lead), lead.collectedAt)
  }

  /** Overwrites the record with this key, or inserts it unowned; an owner is never changed here. */
  function Upsert(db: Db, env: Env, sourceId: nat, lead: NormalizedLead): Db {
    var id := UpsertId(db, env, sourceId, lead);
    var known := ByKey(db.records, sourceId, RecordKey(env, lead)).Some?;
    db.(records := Table(
      db.records.rows[id := RecordRow(env, sourceId, lead, if known then Owner(db, id) else None)],
      if known then db.records.next else db.records.next + 1))
  }

  // ---- leads ----

  /** A lead row as it is written from a merge; the matching keys are always recomputed. */
  function LeadRowOf(merged: MergedLead, status: ValidationStatus, firstSeen: int): LeadRow {
    var value := merged.lead;
    LeadRow(value.payload.values, value.payload.extra,
            CompanySlug(value.Get(CompanyName)), LocationKey(value.Get(City), value.Get(Country)),
            status, firstSeen, if firstSeen < value.collectedAt then value.collectedAt else firstSeen)
  }

  function ColumnOf(row: LeadRow, f: Field): Option<string> {
    if f in row.values then Some(row.values[f]) else None
  }

  /** Invariant of every written row: its keys are those of its own columns. */
  predicate Keyed(row: LeadRow) {
    row.nameSlug == CompanySlug(ColumnOf(row, CompanyName)) &&
    row.locationKey == LocationKey(ColumnOf(row, City), ColumnOf(row, Country))
  }

  function CandidateOf(sources: map<nat, Source>, id: nat, r: Record): Candidate
    requires r.sourceId in sources
  {
    var source := sources[r.sourceId];
    Candidate(
      NormalizedLead(SourceRef(source.name, r.sourceUrl), r.collectedAt, r.normalized),
      Decimal(id), source.priority)
  }

  function OwnedIds(db: Db, leadId: nat): seq<nat> {
    Ids(db.records.rows, (id: nat, r: Record) => r.lead == Some(leadId) && r.sourceId in db.sources,
        1, db.records.next)
  }

  /** One candidate per record of the lead, oldest first. */
  function CandidatesFor(db: Db, leadId: nat): seq<Candidate> {
    var ids := OwnedIds(db, leadId);
    IdsAscend(db.records.rows, (id: nat, r: Record) => r.lead == Some(leadId) && r.sourceId in db.sources,
              1, db.records.next);
    seq(|ids|, i requires 0 <= i < |ids| && ids[i] in ids => CandidateOf(db.sources, ids[i], db.records.rows[ids[i]]))
  }

  function WithoutOrigin(cands: seq<Candidate>, origin: string): seq<Candidate> {
    if cands == [] then []
    else if cands[0].origin == origin then WithoutOrigin(cands[1..], origin)
    else [cands[0]] + WithoutOrigin(cands[1..], origin)
  }

  /** What a re-merge of a lead is built from: its other records and the incoming one. */
  function RemergeInputs(db: Db, leadId: nat, incoming: Candidate): (inputs: seq<Candidate>)
    ensures inputs != []
  {
    WithoutOrigin(CandidatesFor(db, leadId), incoming.origin) + [incoming]
  }

  function Remerge(db: Db, env: Env, leadId: nat, incoming: Candidate): Db
    requires leadId in db.leads.rows
  {
    var merged := MergeOf(RemergeInputs(db, leadId, incoming));
    var row := LeadRowOf(merged, ValidateLead(env, merged.lead), db.leads.rows[leadId].firstSeen);
    db.(leads := db.leads.(rows := db.leads.rows[leadId := row]))
  }

  function Create(db: Db, merged: MergedLead, status: ValidationStatus): Db {
    db.(leads := Table(
      db.leads.rows[db.leads.next := LeadRowOf(merged, status, merged.lead.collectedAt)],
      db.leads.next + 1))
  }

  /** A new link may claim the record for its lead; rewriting an existing one never does. */
  function Linked(db: Db, leadId: nat, recordId: nat, link: Link, claim: bool): Db {
    var db' := db.(links := db.links[(leadId, recordId) := link]);
    if (leadId, recordId) !in db.links && claim && recordId in db.records.rows
    then
      var r := db.records.rows[recordId].(lead := Some(leadId));
      db'.(records := db.records.(rows := db.records.rows[recordId := r]))
    else db'
  }

  /** Deleting a lead takes its records with it, and every link of the lead or of those records. */
  function Deleted(db: Db, leadId: nat): Db {
    var rows := map id | id in db.records.rows && db.records.rows[id].lead != Some(leadId) :: db.records.rows[id];
    db.(records := db.records.(rows := rows),
        leads := db.leads.(rows := db.leads.rows - {leadId}),
        links := map p | p in db.links && p.0 != leadId && p.1 in rows :: db.links[p])
  }

  // ---- candidate lookup ----

  const CANDIDATE_LIMIT := 20

  /** The WHERE clause of the candidate query. */
  predicate Selects(fp: Fingerprints, row: LeadRow) {
    (Truthy(fp.email) && ColumnOf(row, Email) == fp.email) ||
    (Truthy(fp.domain) && ColumnOf(row, WebsiteDomain) == fp.domain) ||
    (Truthy(fp.phone) && ColumnOf(row, Phone) == fp.phone) ||
    (Truthy(fp.nameSlug) && Truthy(fp.location) && row.locationKey == fp.location &&
     row.nameSlug.Some? && Similarity(row.nameSlug.value, fp.nameSlug.value) >= NAME_SIMILARITY_THRESHOLD)
  }

  function SelectedIds(leads: Table<LeadRow>, fp: Fingerprints): seq<nat> {
    Ids(leads.rows, (id: nat, row: LeadRow) => Selects(fp, row), 1, leads.next)
  }

  function FindCandidates(leads: Table<LeadRow>, fp: Fingerprints): seq<nat> {
    var ids := SelectedIds(leads, fp);
    if |ids| <= CANDIDATE_LIMIT then ids else ids[..CANDIDATE_LIMIT]
  }

  function AsNormalized(stored: LeadRow, incoming: NormalizedLead): NormalizedLead {
    NormalizedLead(incoming.source, stored.lastSeen, Payload(stored.values, map[]))
  }

  datatype Found = Found(id: nat, result: MatchResult)

  function MatchStored(leads: Table<LeadRow>, lead: NormalizedLead, id: nat): Option<MatchResult> {
    if id in leads.rows then Match(lead, AsNormalized(leads.rows[id], lead)) else None
  }

  /** Scans in order and moves on only for a strictly higher confidence. */
  function BestOf(leads: Table<LeadRow>, lead: NormalizedLead, ids: seq<nat>,
                  exclude: Option<nat>): (best: Option<Found>)
    ensures best.Some? ==> best.value.id in leads.rows && Some(best.value.id) != exclude
    ensures best.Some? ==> MatchStored(leads, lead, best.value.id) == Some(best.value.result)
  {
    if ids == [] then None
    else
      var best := BestOf(leads, lead, ids[..|ids| - 1], exclude);
      var id := ids[|ids| - 1];
      var result := MatchStored(leads, lead, id);
      if Some(id) == exclude || result.None? then best
      else if best.None? || result.value.confidence > best.value.result.confidence then Some(Found(id, result.value))
      else best
  }

  function BestMatch(leads: Table<LeadRow>, lead: NormalizedLead, exclude: Option<nat>): (best: Option<Found>)
    ensures best.Some? ==> best.value.id in leads.rows && Some(best.value.id) != exclude
    ensures best.Some? ==> MatchStored(leads, lead, best.value.id) == Some(best.value.result)
  {
    BestOf(leads, lead, FindCandidates(leads, FingerprintsOf(lead)), exclude)
  }

  // ---- the tables as one mutable store ----

  class Database {
    var sources: map<nat, Source>
    var records: Table<Record>
    var leads: Table<LeadRow>
    var links: map<(nat, nat), Link>

    constructor (sources: map<nat, Source>)
      ensures State() == Db(sources, Empty(), Empty(), map[])
    {
      this.sources := sources;
      records, leads, links := Empty(), Empty(), map[];
    }

    function State(): Db
      reads this
    {
      Db(sources, records, leads, links)
    }

    method UpsertRecord(env: Env, sourceId: nat, lead: NormalizedLead) returns (id: nat, isNew: bool)
      modifies this
      ensures State() == Upsert(old(State()), env, sourceId, lead)
      ensures id == UpsertId(old(State()), env, sourceId, lead)
      ensures isNew <==> ByKey(old(records), sourceId, RecordKey(env, lead)).None?
    {
      var key := RecordKey(env, lead);
      var found := ByKey(records, sourceId, key);
      isNew := found.None?;
      var owner: Option<nat> := None;
      if isNew {
        id := records.next;
        records := records.(next := records.next + 1);
      } else {
        id := found.value;
        if id in records.rows {
          owner := records.rows[id].lead;
        }
      }
      records := records.(rows := records.rows[id := RecordRow(env, sourceId, lead, owner)]);
    }

    method CreateLead(merged: MergedLead, status: ValidationStatus) returns (id: nat)
      modifies this
      ensures State() == Create(old(State()), merged, status) && id == old(leads.next)
    {
      id := leads.next;
      leads := Table(leads.rows[id := LeadRowOf(merged, status, merged.lead.collectedAt)], id + 1);
    }

    method UpdateLead(id: nat, merged: MergedLead, status: ValidationStatus)
      requires id in leads.rows
      modifies this`leads
      ensures var row := LeadRowOf(merged, status, old(leads).rows[id].firstSeen);
        leads == old(leads).(rows := old(leads).rows[id := row])
    {
      leads := leads.(rows := leads.rows[id := LeadRowOf(merged, status, leads.rows[id].firstSeen)]);
    }

    method LinkRecord(leadId: nat, recordId: nat, link: Link, claim: bool)
      modifies this
      ensures State() == Linked(old(State()), leadId, recordId, link, claim)
    {
      if (leadId, recordId) in links {
        links := links[(leadId, recordId) := link];
        return;
      }
      links := links[(leadId, recordId) := link];
      if claim && recordId in records.rows {
        records := records.(rows := records.rows[recordId := records.rows[recordId].(lead := Some(leadId))]);
      }
    }

    method DeleteLead(leadId: nat) returns (deleted: bool)
      modifies this
      ensures deleted <==> leadId in old(leads).rows
      ensures State() == Deleted(old(State()), leadId)
    {
      deleted := leadId in leads.rows;
      var kept := map id | id in records.rows && records.rows[id].lead != Some(leadId) :: records.rows[id];
      links := map p | p in links && p.0 != leadId && p.1 in kept :: links[p];
      records := records.(rows := kept);
      leads := leads.(rows := leads.rows - {leadId});
    }

    method FindBestMatch(lead: NormalizedLead, exclude: Option<nat>) returns (best: Option<Found>)
      ensures best == BestMatch(leads, lead, exclude)
    {
      var candidates := FindCandidates(leads, FingerprintsOf(lead));
      best := None;
      for i := 0 to |candidates|
        invariant best == BestOf(leads, lead, candidates[..i], exclude)
      {
        assert candidates[..i + 1][..i] == candidates[..i];
        var candidate := candidates[i];
        if Some(candidate) == exclude {
          continue;
        }
        var result := MatchStored(leads, lead, candidate);
        if result.None? {
          continue;
        }
        if best.None? || result.value.confidence > best.value.result.confidence {
          best := Some(Found(candidate, result.value));
        }
      }
      assert candidates[..|candidates|] == candidates;
    }

    method RemergeLead(env: Env, leadId: nat, incoming: Candidate)
      requires leadId in leads.rows
      modifies this
      ensures State() == Remerge(old(State()), env, leadId, incoming)
    {
      var candidates := WithoutOrigin(CandidatesFor(State(), leadId), incoming.origin) + [incoming];
      var merged := Merge(candidates);
      UpdateLead(leadId, merged.value, ValidateLead(env, merged.value.lead));
    }
  }
}
