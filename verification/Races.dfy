/** Deletions while collections are going: each run checks its items against the list it loaded when it started. */
module Races {
  import opened Text
  import opened Domain
  import opened Tables
  import opened Store
  import opened Suppressions
  import opened Pipeline
  import opened Ownership
  import opened Rerun
  import opened Erasure

  /** The site, and the runs that are going, each with its own copy of the suppressions. */
  datatype Live = Live(site: Site, runs: map<nat, Run>)

  datatype Move =
    | Start(runId: nat, sourceId: nat, priority: int)
    | Ingest(runId: nat, item: Item)
    | Stop(runId: nat)
    | Take(action: Action)

  function Moved(live: Live, env: Env, domainOf: string -> Option<string>, move: Move): Live {
    match move
    case Start(runId, sourceId, priority) =>
      if runId in live.runs then live
      else live.(runs := live.runs[runId := Run(sourceId, priority, Load(live.site.suppressions))])
    case Ingest(runId, item) =>
      if runId !in live.runs then live
      else live.(site := live.site.(db := ItemDb(live.site.db, env, live.runs[runId], item)))
    case Stop(runId) => live.(runs := live.runs - {runId})
    case Take(action) => live.(site := Act(live.site, env, domainOf, action))
  }

  function AllMoved(live: Live, env: Env, domainOf: string -> Option<string>, moves: seq<Move>): Live {
    if moves == [] then live
    else Moved(AllMoved(live, env, domainOf, moves[..|moves| - 1]), env, domainOf, moves[|moves| - 1])
  }

  predicate Names(list: SuppressionList, entry: Entry) {
    if entry.kind == EmailKind then entry.value in list.emails else entry.value in list.domains
  }

  /** Every run that is going has a list with the contact on it. */
  ghost predicate AllNamed(live: Live, entry: Entry) {
    forall r :: r in live.runs ==> Names(live.runs[r].blocked, entry)
  }

  /** Nobody lifts the entry. */
  ghost predicate Kept(live: Live, env: Env, domainOf: string -> Option<string>, moves: seq<Move>, entry: Entry) {
    moves == [] ||
    (Kept(live, env, domainOf, moves[..|moves| - 1], entry) &&
     (moves[|moves| - 1].Take? ==>
       Respects(AllMoved(live, env, domainOf, moves[..|moves| - 1]).site, moves[|moves| - 1].action, entry)))
  }

  lemma MoveLeavesContact(live: Live, env: Env, domainOf: string -> Option<string>, move: Move, entry: Entry)
    requires Numbered(live.site.suppressions) && entry.value != "" && Listed(live.site.suppressions, entry)
    requires AllNamed(live, entry) && (move.Take? ==> Respects(live.site, move.action, entry))
    ensures var live' := Moved(live, env, domainOf, move);
      Numbered(live'.site.suppressions) && Listed(live'.site.suppressions, entry) && AllNamed(live', entry) &&
      Untouched(live.site.db, live'.site.db, entry)
  {
    hide Act, Load, Listed, AfterItem, Respects, Carries;
    match move
    case Start(_, _, _) => ListedIsLoaded(live.site.suppressions, entry);
    case Ingest(runId, item) =>
      if runId in live.runs {
        ItemLeavesContact(Progress(live.site.db, NO_COUNTS), env, live.runs[runId], item, entry);
      }
    case Stop(_) =>
    case Take(action) => ActLeavesContact(live.site, env, domainOf, action, entry);
  }

  lemma {:induction false} MovesLeaveContact(
    live: Live, env: Env, domainOf: string -> Option<string>, moves: seq<Move>, entry: Entry)
    requires Numbered(live.site.suppressions) && entry.value != "" && Listed(live.site.suppressions, entry)
    requires AllNamed(live, entry) && Kept(live, env, domainOf, moves, entry)
    ensures var live' := AllMoved(live, env, domainOf, moves);
      Numbered(live'.site.suppressions) && Listed(live'.site.suppressions, entry) && AllNamed(live', entry) &&
      Untouched(live.site.db, live'.site.db, entry)
  {
    hide Moved, Listed, Respects, Carries, AllNamed;
    if moves != [] {
      var init := moves[..|moves| - 1];
      MovesLeaveContact(live, env, domainOf, init, entry);
      var mid := AllMoved(live, env, domainOf, init);
      MoveLeavesContact(mid, env, domainOf, moves[|moves| - 1], entry);
      UntouchedTransitive(live.site.db, mid.site.db, AllMoved(live, env, domainOf, moves).site.db, entry);
    }
  }

  /** A lead that carries the contact and nothing else. */
  function Carrier(entry: Entry, time: int): NormalizedLead {
    NormalizedLead(SourceRef("", None), time, Payload(map[Contact(entry.kind) := entry.value], map[]))
  }

  /** A run whose list does not name the contact stores or rewrites a record with it as soon as it meets one. */
  lemma UnnamedRunStores(db: Db, env: Env, run: Run, entry: Entry) returns (item: Item)
    requires entry.value != "" && !Names(run.blocked, entry)
    ensures !Untouched(db, ItemDb(db, env, run, item), entry)
  {
    hide AfterStored, Upsert, UpsertId, Raises, ByKey;
    var id := UpsertId(db, env, run.sourceId, Carrier(entry, 0));
    var lead := Carrier(entry, if id in db.records.rows then db.records.rows[id].collectedAt + 1 else 0);
    item := Incoming(lead, NoFault);
    SameKeySameId(db, env, run.sourceId, Carrier(entry, 0), lead);
    assert Blocks(run.blocked, lead).None?;
    UpsertStoresPayload(db, env, run.sourceId, lead);
    var db1 := Upsert(db, env, run.sourceId, lead);
    var stored := Progress(db1, Graded(NO_COUNTS.(collected := 1), ValidateLead(env, lead)));
    StoredChangesOwner(stored, env, run, id, lead, NoFault);
    var rows := ItemDb(db, env, run, item).records.rows;
    assert id in rows && Carries(rows[id], entry) && rows[id].collectedAt == lead.collectedAt;
  }

  lemma SameKeySameId(db: Db, env: Env, sourceId: nat, a: NormalizedLead, b: NormalizedLead)
    requires a.payload == b.payload
    ensures UpsertId(db, env, sourceId, a) == UpsertId(db, env, sourceId, b)
  {
    hide ByKey;
    SameSightingSameKey(env, a, b);
  }

  /** From here on no record with the contact is stored or rewritten, whatever happens but lifting the entry. */
  ghost predicate StaysOut(live: Live, env: Env, domainOf: string -> Option<string>, entry: Entry) {
    forall moves :: Kept(live, env, domainOf, moves, entry) ==>
      Untouched(live.site.db, AllMoved(live, env, domainOf, moves).site.db, entry)
  }

  /** A listed contact stays out exactly when every run still going loaded a list that names it. */
  lemma ListedStaysOutExactlyWhenRunsKnow(live: Live, env: Env, domainOf: string -> Option<string>, entry: Entry)
    requires Numbered(live.site.suppressions) && entry.value != "" && Listed(live.site.suppressions, entry)
    ensures StaysOut(live, env, domainOf, entry) <==> AllNamed(live, entry)
  {
    hide Untouched, Listed, Names, Act;
    if AllNamed(live, entry) {
      forall moves | Kept(live, env, domainOf, moves, entry)
        ensures Untouched(live.site.db, AllMoved(live, env, domainOf, moves).site.db, entry)
      {
        MovesLeaveContact(live, env, domainOf, moves, entry);
      }
    } else {
      var r :| r in live.runs && !Names(live.runs[r].blocked, entry);
      var item := UnnamedRunStores(live.site.db, env, live.runs[r], entry);
      var moves := [Ingest(r, item)];
      assert moves[..0] == [];
      assert AllMoved(live, env, domainOf, []) == live;
      assert Kept(live, env, domainOf, [], entry);
      assert AllMoved(live, env, domainOf, moves) == Moved(live, env, domainOf, moves[0]);
    }
  }

  /**
   * Hence, for a contact that is its own normal form, deleting its lead keeps it out exactly when every run going at
   * that moment already had it on its list; a run that started before may otherwise still store it.
   */
  lemma DeletionIsFinalExactlyWhenRunsKnow(
    live: Live, env: Env, domainOf: string -> Option<string>, leadId: nat, kind: Kind)
    requires Numbered(live.site.suppressions) && leadId in live.site.db.leads.rows
    requires Truthy(ColumnOf(live.site.db.leads.rows[leadId], Contact(kind)))
    requires var value := ColumnOf(live.site.db.leads.rows[leadId], Contact(kind)).value;
      NormalizeValue(domainOf, kind, value) == value
    ensures var entry := Entry(kind, ColumnOf(live.site.db.leads.rows[leadId], Contact(kind)).value);
      StaysOut(Moved(live, env, domainOf, Take(DeleteLead(leadId, true))), env, domainOf, entry) <==>
      AllNamed(live, entry)
  {
    hide NormalizeValue, AddedForLead, Listed, Names, StaysOut;
    var row := live.site.db.leads.rows[leadId];
    AddedForLeadKeepsListed(live.site.suppressions, domainOf, ColumnOf(row, Email), ColumnOf(row, WebsiteDomain));
    var deleted := Moved(live, env, domainOf, Take(DeleteLead(leadId, true)));
    ListedStaysOutExactlyWhenRunsKnow(deleted, env, domainOf, Entry(kind, ColumnOf(row, Contact(kind)).value));
  }
}
