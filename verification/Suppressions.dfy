/** Contacts that must never be collected again (app/repositories/suppressions.py). */
module Suppressions {
  import opened Text
  import opened Domain
  import opened Emails
  import opened Hosts
  import opened Tables

  datatype SuppressionList = SuppressionList(emails: set<string>, domains: set<string>)

  function Blocks(list: SuppressionList, lead: NormalizedLead): Option<string> {
    if lead.Get(Email).Some? && lead.Get(Email).value != "" && lead.Get(Email).value in list.emails
    then Some("email")
    else if lead.Get(WebsiteDomain).Some? && lead.Get(WebsiteDomain).value != "" &&
            lead.Get(WebsiteDomain).value in list.domains
    then Some("domain")
    else None
  }

  datatype Kind = EmailKind | DomainKind

  datatype Entry = Entry(kind: Kind, value: string)

  /** `domainOf` is the URL library: the host of a normalised address, if it has one. */
  function NormalizeValue(domainOf: string -> Option<string>, kind: Kind, value: string): string {
    var normal := if kind == EmailKind then NormalizeEmail(value) else domainOf(value);
    if normal.Some? && normal.value != "" then normal.value else Lower(Strip(value))
  }

  function FindEntry(table: Table<Entry>, entry: Entry): Option<nat> {
    var ids := Ids(table.rows, (id: nat, e: Entry) => e == entry, 1, table.next);
    if ids == [] then None else Some(ids[0])
  }

  /** Adding is idempotent: an entry already present is not added twice. */
  function Added(table: Table<Entry>, entry: Entry): Table<Entry> {
    if FindEntry(table, entry).Some? then table else Table(table.rows[table.next := entry], table.next + 1)
  }

  function AddedForLead(table: Table<Entry>, domainOf: string -> Option<string>, email: Option<string>,
                        domain: Option<string>): Table<Entry>
  {
    var t := if Truthy(email)
             then Added(table, Entry(EmailKind, NormalizeValue(domainOf, EmailKind, email.value))) else table;
    if Truthy(domain)
    then Added(t, Entry(DomainKind, NormalizeValue(domainOf, DomainKind, domain.value))) else t
  }

  function Load(table: Table<Entry>): SuppressionList {
    SuppressionList(
      set id | id in table.rows && table.rows[id].kind == EmailKind :: table.rows[id].value,
      set id | id in table.rows && table.rows[id].kind == DomainKind :: table.rows[id].value)
  }

  ghost predicate Listed(table: Table<Entry>, entry: Entry) {
    exists id :: id in table.rows && table.rows[id] == entry
  }

  lemma AddedIsListed(table: Table<Entry>, entry: Entry)
    requires Numbered(table)
    ensures Numbered(Added(table, entry)) && Listed(Added(table, entry), entry)
    ensures forall e :: Listed(table, e) ==> Listed(Added(table, entry), e)
    ensures forall id :: id in table.rows ==>
      id in Added(table, entry).rows && Added(table, entry).rows[id] == table.rows[id]
  {
    IdsAscend(table.rows, (id: nat, e: Entry) => e == entry, 1, table.next);
    var ids := Ids(table.rows, (id: nat, e: Entry) => e == entry, 1, table.next);
    if ids != [] {
      assert ids[0] in ids;
    } else {
      var t := Added(table, entry);
      assert t.rows[table.next] == entry;
      forall e | Listed(table, e) ensures Listed(t, e) {
        var id :| id in table.rows && table.rows[id] == e;
        assert t.rows[id] == e;
      }
    }
  }

  /** No entry is stored under two ids; every list built by adding and removing is such. */
  ghost predicate Unrepeated(table: Table<Entry>) {
    Numbered(table) && forall i, j | i in table.rows && j in table.rows && table.rows[i] == table.rows[j] :: i == j
  }

  lemma AddedStaysUnrepeated(table: Table<Entry>, entry: Entry)
    requires Unrepeated(table)
    ensures Unrepeated(Added(table, entry))
  {
    AddedIsListed(table, entry);
    IdsAscend(table.rows, (id: nat, e: Entry) => e == entry, 1, table.next);
    if FindEntry(table, entry).None? {
      assert forall id :: id in table.rows && table.rows[id] == entry ==>
        id in Ids(table.rows, (id: nat, e: Entry) => e == entry, 1, table.next);
    }
  }

  function Removed(table: Table<Entry>, id: nat): Table<Entry> {
    table.(rows := table.rows - {id})
  }

  /** Removing lifts that one contact and no other, so what it named may be collected again. */
  lemma RemovalLiftsExactlyOneEntry(table: Table<Entry>, id: nat, entry: Entry)
    requires Unrepeated(table)
    ensures Unrepeated(Removed(table, id))
    ensures Listed(Removed(table, id), entry) <==>
      Listed(table, entry) && !(id in table.rows && table.rows[id] == entry)
  {
    if Listed(table, entry) {
      var i :| i in table.rows && table.rows[i] == entry;
      assert i != id ==> Removed(table, id).rows[i] == entry;
    }
  }

  // ---- which stored domains are suppressed as they are ----

  /** The URL library reads a domain as normalisation does. */
  ghost predicate ReadsDomain(domainOf: string -> Option<string>, tail: string -> string, domain: string) {
    domainOf(domain) == DomainOfText(CleanText(domain), tail)
  }

  /** A domain is its own normal form exactly when it has no outer space and no `www.` in front of a host. */
  lemma DomainIsFixedExactly(domainOf: string -> Option<string>, tail: string -> string, domain: string)
    requires TailStops(tail) && DomainLike(domain) && domain != "" && ReadsDomain(domainOf, tail, domain)
    ensures NormalizeValue(domainOf, DomainKind, domain) == domain <==>
      Bare(domain) && !(WellFormed(domain) && WWW <= domain)
  {
    hide DomainOfText, Collapsed, Strip, WellFormed, WithoutWww, Bare, Part, Unseparated;
    CollapsedIsFixed(domain);
    StripIsBare(domain);
    var bare := Strip(domain);
    PartStaysDomainLike(bare, domain);
    DomainOfDomain(bare, tail);
    WithoutWwwStops(bare);
    WithoutWwwStops(WithoutWww(bare));
    StripShortens(domain);
  }

  lemma StripShortens(s: string)
    ensures Strip(s) != s ==> |Strip(s)| < |s| && !Bare(s)
  {
    hide Strip, Bare;
    StripIsBare(s);
    assert s[0..|s|] == s;
  }

  /**
   * The domain of a website is what its deletion suppresses exactly when it has no outer space and is no
   * well-formed host that begins with `www.` again.
   */
  lemma StoredDomainIsSuppressedAsIs(domainOf: string -> Option<string>, tail: string -> string, text: string)
    requires TailStops(tail) && Collapsed(text)
    requires DomainOfText(text, tail).Some? && DomainOfText(text, tail).value != ""
    requires ReadsDomain(domainOf, tail, DomainOfText(text, tail).value)
    ensures var domain := DomainOfText(text, tail).value;
      NormalizeValue(domainOf, DomainKind, domain) == domain <==> Bare(domain) && !(WellFormed(domain) && WWW <= domain)
  {
    hide DomainOfText, Collapsed, WellFormed, Bare;
    StoredDomainIsDomainLike(text, tail);
    DomainIsFixedExactly(domainOf, tail, DomainOfText(text, tail).value);
  }

  /**
   * Of the websites with a well-formed host, however spelled, exactly those whose host begins with `www.` three
   * times leave such a domain.
   */
  lemma ThreePrefixesAreSuppressedDifferently(
    domainOf: string -> Option<string>, tail: string -> string,
    scheme: string, host: string, port: string, rest: string)
    requires TailStops(tail) && WellFormed(Lower(host)) && (rest == "" || rest[0] in STOPS)
    requires port == "" || (port[0] == ':' && PortOk(port[1..]))
    requires if scheme == "" then !Contains(host + port + rest, "://")
      else Lower(scheme) == "http" || Lower(scheme) == "https"
    requires ReadsDomain(domainOf, tail, DomainOfHost(Lower(host)))
    ensures var text := (if scheme == "" then "" else scheme + "://") + host + port + rest;
      DomainOfText(text, tail) == Some(DomainOfHost(Lower(host)))
    ensures var domain := DomainOfHost(Lower(host));
      NormalizeValue(domainOf, DomainKind, domain) == domain <==> !("www.www.www." <= Lower(host))
  {
    hide DomainOfText, WellFormed, WithoutWww, Bare, NormalizeValue, Contains, PortOk;
    WellFormedLeavesCleanDomain(Lower(host));
    SpelledAnyWay(scheme, host, port, rest, tail);
    DomainIsFixedExactly(domainOf, tail, DomainOfHost(Lower(host)));
    ThreeLeaveOne(Lower(host));
  }

  class SuppressionRepository {
    var entries: Table<Entry>

    constructor ()
      ensures entries == Empty()
    {
      entries := Empty();
    }

    method Add(domainOf: string -> Option<string>, kind: Kind, value: string) returns (id: nat)
      requires Numbered(entries)
      modifies this
      ensures entries == Added(old(entries), Entry(kind, NormalizeValue(domainOf, kind, value)))
      ensures Numbered(entries)
      ensures id in entries.rows && entries.rows[id] == Entry(kind, NormalizeValue(domainOf, kind, value))
    {
      var entry := Entry(kind, NormalizeValue(domainOf, kind, value));
      AddedIsListed(entries, entry);
      IdsAscend(entries.rows, (id: nat, e: Entry) => e == entry, 1, entries.next);
      var existing := FindEntry(entries, entry);
      if existing.Some? {
        assert existing.value in Ids(entries.rows, (id: nat, e: Entry) => e == entry, 1, entries.next);
        return existing.value;
      }
      id := entries.next;
      entries := Table(entries.rows[id := entry], id + 1);
    }

    method AddForLead(domainOf: string -> Option<string>, email: Option<string>, domain: Option<string>)
      returns (added: seq<nat>)
      requires Numbered(entries)
      modifies this
      ensures Numbered(entries)
      ensures entries == AddedForLead(old(entries), domainOf, email, domain)
      ensures |added| == (if Truthy(email) then 1 else 0) + (if Truthy(domain) then 1 else 0)
      ensures forall id :: id in added ==> id in entries.rows
      ensures Truthy(email) ==>
        entries.rows[added[0]] == Entry(EmailKind, NormalizeValue(domainOf, EmailKind, email.value))
      ensures Truthy(domain) ==>
        entries.rows[added[|added| - 1]] == Entry(DomainKind, NormalizeValue(domainOf, DomainKind, domain.value))
    {
      hide NormalizeValue;
      added := [];
      if Truthy(email) {
        var id := Add(domainOf, EmailKind, email.value);
        added := added + [id];
      }
      if Truthy(domain) {
        ghost var before := entries;
        var id := Add(domainOf, DomainKind, domain.value);
        AddedIsListed(before, Entry(DomainKind, NormalizeValue(domainOf, DomainKind, domain.value)));
        added := added + [id];
      }
    }

    method Remove(id: nat) returns (removed: bool)
      modifies this
      ensures removed <==> id in old(entries).rows
      ensures entries == Removed(old(entries), id)
    {
      removed := id in entries.rows;
      entries := entries.(rows := entries.rows - {id});
    }
  }
}
