/** What the candidate query and the best-match loop find, compared with a search of the whole table. */
module Lookup {
  import opened Text
  import opened Domain
  import opened Fingerprint
  import opened Matching
  import opened Tables
  import opened Store

  lemma JoinedSlugIsNotEmpty(name: Option<string>)
    ensures CompanySlug(name).Some? ==> CompanySlug(name).value != ""
  {
  }

  /** The matcher sees a stored row through the same keys the query compares; it never sees an external id. */
  lemma StoredFingerprints(row: LeadRow, lead: NormalizedLead)
    requires Keyed(row)
    ensures var b := FingerprintsOf(AsNormalized(row, lead));
      b.domain == ColumnOf(row, WebsiteDomain) &&
      b.nameSlug == row.nameSlug && b.location == row.locationKey && b.externalId == None &&
      (forall v :: '@' in v ==> (b.email == Some(v) <==> ColumnOf(row, Email) == Some(v))) &&
      (forall v: string :: v != "" && v[0] == '+' ==> (b.phone == Some(v) <==> ColumnOf(row, Phone) == Some(v)))
  {
    assert forall f: Field :: AsNormalized(row, lead).Get(f) == ColumnOf(row, f);
  }

  /** On rows with up-to-date keys the query and the matcher differ only over an empty domain. */
  lemma {:induction false} SelectedExactlyWhenMatched(lead: NormalizedLead, row: LeadRow)
    requires Keyed(row)
    requires FingerprintsOf(lead).domain != Some("")
    ensures Selects(FingerprintsOf(lead), row) <==> Match(lead, AsNormalized(row, lead)).Some?
  {
    var a, b := FingerprintsOf(lead), FingerprintsOf(AsNormalized(row, lead));
    JoinedSlugIsNotEmpty(lead.Get(CompanyName));
    StoredFingerprints(row, lead);
    assert Truthy(a.email) && ColumnOf(row, Email) == a.email <==> Shared(a.email, b.email);
    assert Truthy(a.phone) && ColumnOf(row, Phone) == a.phone <==> Shared(a.phone, b.phone);
    assert Truthy(a.domain) && ColumnOf(row, WebsiteDomain) == a.domain <==> Shared(a.domain, b.domain);
    NameQueryMatches(a, b);
  }

  lemma NameQueryMatches(a: Fingerprints, b: Fingerprints)
    requires a.nameSlug != Some("") && a.location != Some("")
    ensures MatchNameLocation(a, b).Some? <==>
      Truthy(a.nameSlug) && Truthy(a.location) && b.location == a.location && b.nameSlug.Some? &&
      Similarity(b.nameSlug.value, a.nameSlug.value) >= NAME_SIMILARITY_THRESHOLD
  {
    if a.nameSlug.Some? && b.nameSlug.Some? {
      SimilarityLaws(a.nameSlug.value, b.nameSlug.value);
    }
  }

  /**
   * The query loses no match of an incoming lead, on any table, exactly when the lead's domain is not
   * the empty string (which `https://www.` normalises to).
   */
  lemma QueryIsExactUnlessDomainEmpty(lead: NormalizedLead)
    ensures (forall row: LeadRow :: Keyed(row) ==>
      (Selects(FingerprintsOf(lead), row) <==> Match(lead, AsNormalized(row, lead)).Some?))
      <==> FingerprintsOf(lead).domain != Some("")
  {
    if FingerprintsOf(lead).domain != Some("") {
      forall row: LeadRow | Keyed(row)
        ensures Selects(FingerprintsOf(lead), row) <==> Match(lead, AsNormalized(row, lead)).Some?
      {
        SelectedExactlyWhenMatched(lead, row);
      }
    } else {
      var row := LeadRow(map[WebsiteDomain := ""], map[], None, None, Unknown, 0, 0);
      assert Keyed(row) && !Selects(FingerprintsOf(lead), row);
      assert AsNormalized(row, lead).Get(WebsiteDomain) == Some("");
    }
  }

  /** Against a stored lead, which carries no identifier, the rule that decides is always the strongest one. */
  lemma StoredMatchIsStrongest(leads: Table<LeadRow>, lead: NormalizedLead, id: nat, rule: MatchRule)
    requires id in leads.rows && Worth(lead, AsNormalized(leads.rows[id], lead), rule).Some?
    ensures MatchStored(leads, lead, id).Some?
    ensures Worth(lead, AsNormalized(leads.rows[id], lead), rule).value <= MatchStored(leads, lead, id).value.confidence
  {
    hide Match, MatchNameLocation, Similarity, CompanySlug, LocationKey;
    var stored := AsNormalized(leads.rows[id], lead);
    FirstRuleIsStrongestUnlessIdentifierShared(lead, stored);
    assert stored.ExternalId() == None;
  }

  /** `best` has the highest confidence among the ids, and the lowest id among those. */
  ghost predicate IsBest(leads: Table<LeadRow>, lead: NormalizedLead, ids: iset<nat>, best: Option<Found>) {
    match best
    case None => forall id :: id in ids ==> MatchStored(leads, lead, id).None?
    case Some(f) =>
      f.id in ids && MatchStored(leads, lead, f.id) == Some(f.result) &&
      forall id :: id in ids && MatchStored(leads, lead, id).Some? ==>
        var c := MatchStored(leads, lead, id).value.confidence;
        c < f.result.confidence || (c == f.result.confidence && f.id <= id)
  }

  lemma BestIsUnique(leads: Table<LeadRow>, lead: NormalizedLead, ids: iset<nat>, a: Option<Found>, b: Option<Found>)
    requires IsBest(leads, lead, ids, a) && IsBest(leads, lead, ids, b)
    ensures a == b
  {
    if a.Some? { assert a.value.id in ids; }
    if b.Some? { assert b.value.id in ids; }
  }

  ghost function Among(ids: seq<nat>, exclude: Option<nat>): iset<nat> {
    iset id | id in ids && Some(id) != exclude
  }

  /** One more candidate is taken exactly when it may be, matches, and scores higher. */
  lemma BestOfUnfolds(leads: Table<LeadRow>, lead: NormalizedLead, init: seq<nat>, last: nat, exclude: Option<nat>)
    ensures var best, result := BestOf(leads, lead, init, exclude), MatchStored(leads, lead, last);
      BestOf(leads, lead, init + [last], exclude) ==
      if Some(last) != exclude && result.Some? &&
         (best.None? || result.value.confidence > best.value.result.confidence)
      then Some(Found(last, result.value)) else best
  {
    hide MatchStored;
    var ids := init + [last];
    assert ids[..|ids| - 1] == init && ids[|ids| - 1] == last;
  }

  lemma BestOfOneMore(leads: Table<LeadRow>, lead: NormalizedLead, init: seq<nat>, last: nat, exclude: Option<nat>)
    requires forall id :: id in init ==> id < last
    requires IsBest(leads, lead, Among(init, exclude), BestOf(leads, lead, init, exclude))
    ensures IsBest(leads, lead, Among(init + [last], exclude), BestOf(leads, lead, init + [last], exclude))
  {
    BestOfUnfolds(leads, lead, init, last, exclude);
    hide MatchStored, BestOf;
  }

  lemma {:induction false} BestOfIsBest(
    leads: Table<LeadRow>, lead: NormalizedLead, ids: seq<nat>, exclude: Option<nat>)
    requires forall i, j :: 0 <= i < j < |ids| ==> ids[i] < ids[j]
    ensures IsBest(leads, lead, Among(ids, exclude), BestOf(leads, lead, ids, exclude))
  {
    hide IsBest;
    if ids == [] {
      NothingIsBest(leads, lead, exclude);
    } else {
      var init, last := ids[..|ids| - 1], ids[|ids| - 1];
      assert ids == init + [last];
      BestOfIsBest(leads, lead, init, exclude);
      forall id | id in init ensures id < last {
        var i :| 0 <= i < |init| && init[i] == id;
        assert ids[i] == id;
      }
      BestOfOneMore(leads, lead, init, last, exclude);
    }
  }

  lemma NothingIsBest(leads: Table<LeadRow>, lead: NormalizedLead, exclude: Option<nat>)
    ensures IsBest(leads, lead, Among([], exclude), BestOf(leads, lead, [], exclude))
  {
  }

  /** Rows whose keys are current, as every write leaves them. */
  ghost predicate LeadsKeyed(leads: Table<LeadRow>) {
    Numbered(leads) && forall id :: id in leads.rows ==> Keyed(leads.rows[id])
  }

  ghost function AllBut(exclude: Option<nat>): iset<nat> {
    iset id: nat | Some(id) != exclude
  }

  /**
   * While at most 20 leads satisfy the query, the loop finds the same lead as scoring every stored lead
   * except the excluded one.
   */
  lemma BestMatchIsBruteForce(leads: Table<LeadRow>, lead: NormalizedLead, exclude: Option<nat>)
    requires LeadsKeyed(leads) && FingerprintsOf(lead).domain != Some("")
    requires |SelectedIds(leads, FingerprintsOf(lead))| <= 20
    ensures IsBest(leads, lead, AllBut(exclude), BestMatch(leads, lead, exclude))
  {
    var fp := FingerprintsOf(lead);
    IdsAscend(leads.rows, (id: nat, row: LeadRow) => Selects(fp, row), 1, leads.next);
    var ids := SelectedIds(leads, fp);
    BestOfIsBest(leads, lead, ids, exclude);
    forall id | MatchStored(leads, lead, id).Some? ensures id in ids {
      SelectedExactlyWhenMatched(lead, leads.rows[id]);
    }
  }

  /** Hence a lead sharing an email, domain or phone is preferred to any merely similar name. */
  lemma ExactKeyBeatsName(leads: Table<LeadRow>, lead: NormalizedLead, exclude: Option<nat>, id: nat)
    requires LeadsKeyed(leads) && FingerprintsOf(lead).domain != Some("")
    requires |SelectedIds(leads, FingerprintsOf(lead))| <= 20
    requires Some(id) != exclude && MatchStored(leads, lead, id).Some?
    requires MatchStored(leads, lead, id).value.rule != ByNameLocation
    ensures BestMatch(leads, lead, exclude).Some? && BestMatch(leads, lead, exclude).value.result.autoMerge
  {
    BestMatchIsBruteForce(leads, lead, exclude);
    assert id in AllBut(exclude);
    var best := BestMatch(leads, lead, exclude).value;
    NameAloneNeverMerges(lead, AsNormalized(leads.rows[id], lead));
    NameAloneNeverMerges(lead, AsNormalized(leads.rows[best.id], lead));
  }

  /** How similar a stored lead's name is to the incoming one. */
  function NameScore(lead: NormalizedLead, row: LeadRow): real {
    var slug := CompanySlug(lead.Get(CompanyName));
    if slug.Some? && row.nameSlug.Some? then Similarity(slug.value, row.nameSlug.value) else 0.0
  }

  /**
   * Among leads alike by name only, the best match is the most similar: no other is strictly more similar unless
   * both are at the cap, and of equally similar ones it has the lowest id.
   */
  lemma MostSimilarNameIsFound(leads: Table<LeadRow>, lead: NormalizedLead, exclude: Option<nat>, id: nat)
    requires LeadsKeyed(leads) && FingerprintsOf(lead).domain != Some("")
    requires |SelectedIds(leads, FingerprintsOf(lead))| <= 20
    requires id in leads.rows && Some(id) != exclude && MatchStored(leads, lead, id).Some?
    requires MatchStored(leads, lead, id).value.rule == ByNameLocation
    ensures var best := BestMatch(leads, lead, exclude);
      best.Some? &&
      (best.value.result.rule == ByNameLocation ==>
        var b, x := NameScore(lead, leads.rows[best.value.id]), NameScore(lead, leads.rows[id]);
        (b < 0.8 ==> x <= b) && (x >= 0.8 ==> b >= 0.8) && (b == x || (b >= 0.8 && x >= 0.8) ==> best.value.id <= id))
  {
    hide Similarity, CompanySlug, LocationKey, SelectedIds, BestOf, Match;
    BestMatchIsBruteForce(leads, lead, exclude);
    assert id in AllBut(exclude);
    var best := BestMatch(leads, lead, exclude).value;
    NameMatchExactly(lead, AsNormalized(leads.rows[id], lead));
    NameMatchExactly(lead, AsNormalized(leads.rows[best.id], lead));
    StoredFingerprints(leads.rows[id], lead);
    StoredFingerprints(leads.rows[best.id], lead);
  }

  // ---- 20 is the exact number of matching leads up to which this holds ----

  function PhoneOnly(): LeadRow {
    LeadRow(map[Phone := "+1"], map[], None, None, Unknown, 0, 0)
  }

  function EmailOnly(): LeadRow {
    LeadRow(map[Email := "@"], map[], None, None, Unknown, 0, 0)
  }

  /** Leads 1..n-1 share the incoming phone; the newest, n, shares its email. */
  function CrowdRow(id: nat, n: nat): LeadRow {
    if id < n then PhoneOnly() else EmailOnly()
  }

  function CrowdedTable(n: nat): Table<LeadRow> {
    Table(map id: nat | 1 <= id <= n :: CrowdRow(id, n), n + 1)
  }

  function Incoming(): NormalizedLead {
    NormalizedLead(SourceRef("s", None), 0, Payload(map[Phone := "+1", Email := "@"], map[]))
  }

  lemma {:induction false} CrowdedIds(n: nat, lo: nat)
    requires 1 <= lo <= n + 1
    ensures var ids := Ids(CrowdedTable(n).rows,
        (id: nat, row: LeadRow) => Selects(FingerprintsOf(Incoming()), row), lo, n + 1);
      |ids| == n + 1 - lo && forall i :: 0 <= i < |ids| ==> ids[i] == lo + i
    decreases n + 1 - lo
  {
    if lo <= n {
      CrowdedIds(n, lo + 1);
      assert ColumnOf(CrowdRow(lo, n), if lo < n then Phone else Email).Some?;
      assert Selects(FingerprintsOf(Incoming()), CrowdedTable(n).rows[lo]);
    }
  }

  ghost predicate AlwaysBruteForce(selected: nat) {
    forall leads: Table<LeadRow>, lead: NormalizedLead, exclude: Option<nat> ::
      LeadsKeyed(leads) && FingerprintsOf(lead).domain != Some("") &&
      |SelectedIds(leads, FingerprintsOf(lead))| == selected ==>
      IsBest(leads, lead, AllBut(exclude), BestMatch(leads, lead, exclude))
  }

  lemma TwentyIsTheLimit(selected: nat)
    ensures AlwaysBruteForce(selected) <==> selected <= 20
  {
    if selected <= CANDIDATE_LIMIT {
      forall leads: Table<LeadRow>, lead: NormalizedLead, exclude: Option<nat> |
        LeadsKeyed(leads) && FingerprintsOf(lead).domain != Some("") &&
        |SelectedIds(leads, FingerprintsOf(lead))| == selected
        ensures IsBest(leads, lead, AllBut(exclude), BestMatch(leads, lead, exclude))
      {
        BestMatchIsBruteForce(leads, lead, exclude);
      }
    } else {
      CrowdHidesTheEmail(selected);
    }
  }

  lemma CrowdRowsScore(n: nat, id: nat)
    requires 1 <= id <= n
    ensures Keyed(CrowdedTable(n).rows[id])
    ensures MatchStored(CrowdedTable(n), Incoming(), id) ==
      Some(if id < n then MatchResult(ByPhone, 0.9, true) else MatchResult(ByEmail, 1.0, true))
  {
    var row := CrowdedTable(n).rows[id];
    assert row == CrowdRow(id, n);
    assert AsNormalized(row, Incoming()).Get(Email) == if id < n then None else Some("@");
  }

  lemma CrowdHidesTheEmail(n: nat)
    requires n > 20
    ensures !AlwaysBruteForce(n)
  {
    hide MatchStored, FingerprintsOf, Match, Selects, BestOf, Keyed;
    var leads, lead := CrowdedTable(n), Incoming();
    CrowdedIds(n, 1);
    assert FingerprintsOf(lead).domain != Some("") by { IncomingHasNoDomain(); }
    var ids := FindCandidates(leads, FingerprintsOf(lead));
    BestOfIsBest(leads, lead, ids, None);
    var best := BestMatch(leads, lead, None);
    CrowdRowsScore(n, n);
    forall id | id in leads.rows ensures Keyed(leads.rows[id]) {
      CrowdRowsScore(n, id);
    }
    if best.Some? {
      assert best.value.id in ids;
      CrowdRowsScore(n, best.value.id);
    }
    assert n in AllBut(None);
    assert !IsBest(leads, lead, AllBut(None), best);
  }

  lemma IncomingHasNoDomain()
    ensures FingerprintsOf(Incoming()).domain == None
  {
  }
}
