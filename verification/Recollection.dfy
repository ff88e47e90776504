/** A concrete run of collections after which an erased record comes back, because its lead showed another address. */
module Recollection {
  import opened Text
  import opened OriginKeys
  import opened Emails
  import opened Tables
  import opened Store
  import opened Suppressions
  import opened Pipeline
  import opened Ownership
  import opened Derivation
  import opened Rerun
  import opened Erasure
  import opened Stranding
  import opened Joining

  const SETUP := Setup(ENV, SOURCES, 1, 1, 0, 0)
  const FIRST := Member("s", "1", "a@", 0)
  const SECOND := Member("s", "2", "b@", 0)

  /** Two records of one company are collected, their lead is erased, and the second record is collected again. */
  const ACTIONS: seq<Action> := [
    Collect(1, 0, [Incoming(FIRST, NoFault), Incoming(SECOND, NoFault)]),
    DeleteLead(1, true),
    Collect(1, 0, [Incoming(SECOND, NoFault)])]

  const NEW_SITE := Site(EMPTY_STORE.(sources := SOURCES), Empty())

  // ---- the three actions ----

  /** Collecting items into a site is ingesting them one by one. */
  lemma CollectTwo(site: Site, domainOf: string -> Option<string>, a: Item, b: Item)
    requires site.suppressions == Empty()
    ensures Act(site, ENV, domainOf, Collect(1, 0, [a, b])) ==
      site.(db := ItemDb(ItemDb(site.db, ENV, RUN, a), ENV, RUN, b))
  {
    hide AfterItem;
    assert Load(site.suppressions) == SuppressionList({}, {});
    var start := Progress(site.db, NO_COUNTS);
    assert [a, b][..1] == [a] && [a][..0] == [];
    assert Collected(start, ENV, RUN, []) == start;
    assert Collected(start, ENV, RUN, [a]) == AfterItem(start, ENV, RUN, a);
    CountersDoNotMatter(start, ENV, RUN, a);
    CountersDoNotMatter(AfterItem(start, ENV, RUN, a), ENV, RUN, b);
  }

  lemma FirstAction(domainOf: string -> Option<string>)
    ensures var site := Acts(NEW_SITE, ENV, domainOf, ACTIONS[..1]);
      Joined(site.db, SETUP) && site.suppressions == Empty()
  {
    hide ItemDb, Act, Joined, Member;
    SecondIsCollected(SETUP);
    assert RunFor(SETUP, 1) == RUN && First(SETUP) == FIRST && Second(SETUP) == SECOND;
    CollectTwo(NEW_SITE, domainOf, Incoming(FIRST, NoFault), Incoming(SECOND, NoFault));
    assert ACTIONS[..1][..0] == [] && ACTIONS[..1][0] == ACTIONS[0];
    assert Acts(NEW_SITE, ENV, domainOf, []) == NEW_SITE;
  }

  /** The deletion erases both records but lists only the address that the lead shows. */
  lemma SecondAction(domainOf: string -> Option<string>)
    ensures var site := Acts(NEW_SITE, ENV, domainOf, ACTIONS[..2]);
      site.db.records.rows == map[] && Blocks(Load(site.suppressions), FIRST).Some? &&
      Blocks(Load(site.suppressions), SECOND).None?
  {
    hide Consistent, Derived, CandidateOf, Decimal, Load, NormalizeValue, AddedForLead, Blocks, Listed;
    FirstAction(domainOf);
    var site := Acts(NEW_SITE, ENV, domainOf, ACTIONS[..1]);
    assert site.db.(sources := SOURCES) == site.db;
    JoinedShows(site.db, SETUP, SOURCES);
    assert ACTIONS[..2][..1] == ACTIONS[..1] && ACTIONS[..2][1] == DeleteLead(1, true);
    assert Acts(NEW_SITE, ENV, domainOf, ACTIONS[..2]) == Act(site, ENV, domainOf, DeleteLead(1, true));
    DeletionBlocksExactlyItsContacts(site, ENV, domainOf, 1, FIRST);
    DeletionBlocksExactlyItsContacts(site, ENV, domainOf, 1, SECOND);
    ShortAddressIsFixed(domainOf);
    NothingListed(Entry(EmailKind, "b@"));
    assert forall id :: id in site.db.records.rows ==> site.db.records.rows[id].lead == Some(1);
  }

  lemma ShortAddressIsFixed(domainOf: string -> Option<string>)
    ensures NormalizeValue(domainOf, EmailKind, "a@") == "a@"
  {
    hide NormalizeEmail;
    PlainEmailIsKept("a@");
  }

  lemma NothingListed(entry: Entry)
    ensures !Listed(Empty(), entry)
  {
  }

  lemma StoredAgain(db: Db, run: Run)
    requires run.sourceId == 1 && Blocks(run.blocked, SECOND).None?
    ensures var rows := AfterItem(Progress(db, NO_COUNTS), ENV, run, Incoming(SECOND, NoFault)).db.records.rows;
      exists id :: id in rows && Carries(rows[id], Entry(EmailKind, "b@"))
  {
    hide AfterStored, Upsert, UpsertId, Blocks, Raises;
    var db1, id := Upsert(db, ENV, 1, SECOND), UpsertId(db, ENV, 1, SECOND);
    UpsertStoresPayload(db, ENV, 1, SECOND);
    var stored := Progress(db1, Graded(NO_COUNTS.(collected := 1), ValidateLead(ENV, SECOND)));
    StoredChangesOwner(stored, ENV, run, id, SECOND, NoFault);
    var rows := AfterItem(Progress(db, NO_COUNTS), ENV, run, Incoming(SECOND, NoFault)).db.records.rows;
    assert id in rows && Carries(rows[id], Entry(EmailKind, "b@"));
  }

  lemma ThirdAction(domainOf: string -> Option<string>)
    ensures var erased := Acts(NEW_SITE, ENV, domainOf, ACTIONS[..2]);
      Acts(NEW_SITE, ENV, domainOf, ACTIONS).db ==
      AfterItem(Progress(erased.db, NO_COUNTS), ENV, Run(1, 0, Load(erased.suppressions)), Incoming(SECOND, NoFault)).db
  {
    hide AfterItem, Load;
    var erased := Acts(NEW_SITE, ENV, domainOf, ACTIONS[..2]);
    var start, run := Progress(erased.db, NO_COUNTS), Run(1, 0, Load(erased.suppressions));
    assert Collected(start, ENV, run, []) == start;
    assert [Incoming(SECOND, NoFault)][..0] == [];
    assert Collected(start, ENV, run, [Incoming(SECOND, NoFault)]) ==
      AfterItem(start, ENV, run, Incoming(SECOND, NoFault));
    assert Acts(NEW_SITE, ENV, domainOf, ACTIONS) == Act(erased, ENV, domainOf, ACTIONS[2]);
  }

  /**
   * Deletion with suppression does not keep every record of a lead out. Both records belonged to lead 1, and
   * deleting it erased both; the second is collected again and stored, address and all.
   */
  lemma ErasedRecordComesBack(domainOf: string -> Option<string>)
    ensures var before := Acts(NEW_SITE, ENV, domainOf, ACTIONS[..1]);
      var erased := Acts(NEW_SITE, ENV, domainOf, ACTIONS[..2]);
      var after := Acts(NEW_SITE, ENV, domainOf, ACTIONS);
      Owner(before.db, 1) == Some(1) && Owner(before.db, 2) == Some(1) && erased.db.records.rows == map[] &&
      exists id :: id in after.db.records.rows && Carries(after.db.records.rows[id], Entry(EmailKind, "b@"))
  {
    hide Acts, Load, Blocks, AfterItem, Sound, Derived, CandidateOf, Carries;
    FirstAction(domainOf);
    SecondAction(domainOf);
    var erased := Acts(NEW_SITE, ENV, domainOf, ACTIONS[..2]);
    StoredAgain(erased.db, Run(1, 0, Load(erased.suppressions)));
    ThirdAction(domainOf);
  }
}
