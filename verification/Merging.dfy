/** Building one lead out of several records (app/deduplication/merge.py). */
module Merging {
  import opened Text
  import opened Domain
  import opened OriginKeys

  datatype Candidate = Candidate(lead: NormalizedLead, origin: string, priority: int)

  datatype MergedLead = MergedLead(lead: NormalizedLead, origins: map<Field, string>)

  const SINGLE_FIELDS: seq<Field> :=
    [CompanyName, ContactName, Email, Phone, Address, City, Country]

  /** Sort key of a candidate; the numbers are negated so that smaller is better. */
  datatype Rank = Rank(priority: int, time: int, filled: int, origin: OriginKey)

  function RankOf(c: Candidate): Rank {
    Rank(-c.priority, -c.lead.collectedAt, -|c.lead.payload.values|, KeyOfOrigin(c.origin))
  }

  predicate RankLess(a: Rank, b: Rank) {
    a.priority < b.priority ||
    (a.priority == b.priority &&
     (a.time < b.time ||
      (a.time == b.time &&
       (a.filled < b.filled ||
        (a.filled == b.filled && OriginLess(a.origin, b.origin))))))
  }

  lemma RankLessIsStrictOrder(a: Rank, b: Rank, c: Rank)
    ensures !(RankLess(a, b) && RankLess(b, a))
    ensures a == b || RankLess(a, b) || RankLess(b, a)
    ensures RankLess(a, b) && RankLess(b, c) ==> RankLess(a, c)
  {
    OriginLessIsStrictOrder(a.origin, b.origin, c.origin);
  }

  /** What a merged lead takes from a single candidate: its source, one column, or one extra key. */
  datatype Slot = Anyone | Column(field: Field) | Extra(key: string)

  predicate Holds(c: Candidate, slot: Slot) {
    match slot
    case Anyone => true
    case Column(f) => f in c.lead.payload.values
    case Extra(k) => k in c.lead.payload.extra
  }

  /** `c` may supply `slot`: it holds it and no holder in `cands` ranks before it. */
  ghost predicate Least(c: Candidate, cands: seq<Candidate>, slot: Slot) {
    c in cands && Holds(c, slot) &&
    forall d :: d in cands && Holds(d, slot) ==> !RankLess(RankOf(d), RankOf(c))
  }

  function Better(a: Option<Candidate>, b: Option<Candidate>): Option<Candidate> {
    if b.None? then a
    else if a.None? || RankLess(RankOf(b.value), RankOf(a.value)) then b
    else a
  }

  function Offer(c: Candidate, slot: Slot): Option<Candidate> {
    if Holds(c, slot) then Some(c) else None
  }

  /** The first of the rank-least holders of `slot`. */
  function Winner(cands: seq<Candidate>, slot: Slot): Option<Candidate> {
    if cands == [] then None
    else Better(Winner(cands[..|cands| - 1], slot), Offer(cands[|cands| - 1], slot))
  }

  /** Adding one more candidate keeps the better of it and the previous best. */
  lemma BetterIsLeast(w: Candidate, init: seq<Candidate>, last: Candidate, slot: Slot)
    requires Least(w, init, slot)
    ensures Least(Better(Some(w), Offer(last, slot)).value, init + [last], slot)
  {
    hide RankLess, RankOf;
    var best := Better(Some(w), Offer(last, slot)).value;
    forall d | d in init + [last] && Holds(d, slot) ensures !RankLess(RankOf(d), RankOf(best)) {
      RankLessIsStrictOrder(RankOf(d), RankOf(last), RankOf(w));
    }
  }

  ghost predicate NoHolder(cands: seq<Candidate>, slot: Slot) {
    forall c :: c in cands ==> !Holds(c, slot)
  }

  lemma FirstHolderIsLeast(init: seq<Candidate>, last: Candidate, slot: Slot)
    requires NoHolder(init, slot) && Holds(last, slot)
    ensures Least(last, init + [last], slot)
  {
    RankLessIsStrictOrder(RankOf(last), RankOf(last), RankOf(last));
  }

  lemma {:induction false} WinnerIsLeast(cands: seq<Candidate>, slot: Slot)
    ensures if Winner(cands, slot).None? then NoHolder(cands, slot) else Least(Winner(cands, slot).value, cands, slot)
  {
    hide RankLess, RankOf, Holds, Least;
    if cands != [] {
      var init, last := cands[..|cands| - 1], cands[|cands| - 1];
      assert cands == init + [last];
      WinnerIsLeast(init, slot);
      if Winner(init, slot).Some? {
        BetterIsLeast(Winner(init, slot).value, init, last, slot);
      } else if Holds(last, slot) {
        FirstHolderIsLeast(init, last, slot);
      }
    }
  }

  /** A least holder placed first is the one that wins. */
  lemma {:induction false} LeastFirstWins(c: Candidate, rest: seq<Candidate>, slot: Slot)
    requires Least(c, [c] + rest, slot)
    ensures Winner([c] + rest, slot) == Some(c)
  {
    hide RankLess, RankOf;
    if rest == [] {
      assert Winner([c][..0], slot) == None;
    } else {
      var init := rest[..|rest| - 1];
      assert ([c] + rest)[..|rest|] == [c] + init;
      assert forall d :: d in [c] + init ==> d in [c] + rest;
      assert rest[|rest| - 1] in [c] + rest;
      LeastFirstWins(c, init, slot);
    }
  }

  /** Merging two groups at once picks the better of the two groups' own winners. */
  lemma {:induction false} WinnerOfConcat(a: seq<Candidate>, b: seq<Candidate>, slot: Slot)
    ensures Winner(a + b, slot) == Better(Winner(a, slot), Winner(b, slot))
  {
    hide RankLess, RankOf;
    if b == [] {
      assert a + b == a;
    } else {
      var init, last := b[..|b| - 1], b[|b| - 1];
      assert (a + b)[..|a + b| - 1] == a + init;
      WinnerOfConcat(a, init, slot);
      var x, y, z := Winner(a, slot), Winner(init, slot), Offer(last, slot);
      if x.Some? && y.Some? && z.Some? {
        RankLessIsStrictOrder(RankOf(z.value), RankOf(y.value), RankOf(x.value));
        RankLessIsStrictOrder(RankOf(y.value), RankOf(z.value), RankOf(x.value));
        RankLessIsStrictOrder(RankOf(z.value), RankOf(x.value), RankOf(y.value));
      }
    }
  }

  /** The slot a column is filled from: the domain always follows the website. */
  function SlotOf(field: Field): Slot {
    Column(if field == WebsiteDomain then Website else field)
  }

  function LatestSighting(cands: seq<Candidate>): int
    requires |cands| > 0
  {
    var last := cands[|cands| - 1].lead.collectedAt;
    if |cands| == 1 then last
    else
      var rest := LatestSighting(cands[..|cands| - 1]);
      if rest < last then last else rest
  }

  lemma {:induction false} LatestSightingIsMax(cands: seq<Candidate>)
    requires |cands| > 0
    ensures forall c :: c in cands ==> c.lead.collectedAt <= LatestSighting(cands)
    ensures exists c :: c in cands && c.lead.collectedAt == LatestSighting(cands)
  {
    var last := cands[|cands| - 1];
    assert last in cands;
    if |cands| > 1 {
      var init := cands[..|cands| - 1];
      LatestSightingIsMax(init);
      assert cands == init + [last];
      var c :| c in init && c.lead.collectedAt == LatestSighting(init);
      assert c in cands;
    }
  }

  function ExtraKeys(cands: seq<Candidate>): (keys: set<string>)
    ensures forall k :: k in keys <==> exists c :: c in cands && k in c.lead.payload.extra
  {
    set c, k | c in cands && k in c.lead.payload.extra :: k
  }

  /**
   * The merged lead described slot by slot: every part comes from the best candidate that has it.
   * `Merge` below computes the same thing by sorting and scanning.
   */
  function MergedValues(cands: seq<Candidate>): map<Field, string> {
    map f: Field | Winner(cands, SlotOf(f)).Some? && f in Winner(cands, SlotOf(f)).value.lead.payload.values
      :: Winner(cands, SlotOf(f)).value.lead.payload.values[f]
  }

  function MergedOrigins(cands: seq<Candidate>): map<Field, string> {
    map f: Field | Winner(cands, SlotOf(f)).Some? :: Winner(cands, SlotOf(f)).value.origin
  }

  function MergedExtra(cands: seq<Candidate>): map<string, Option<string>> {
    map k | k in ExtraKeys(cands) && Winner(cands, Extra(k)).Some? &&
      k in Winner(cands, Extra(k)).value.lead.payload.extra
      :: Winner(cands, Extra(k)).value.lead.payload.extra[k]
  }

  function MergeOf(cands: seq<Candidate>): MergedLead
    requires |cands| > 0
  {
    WinnerIsLeast(cands, Anyone);
    assert cands[0] in cands && Holds(cands[0], Anyone);
    MergedLead(
      NormalizedLead(
        Winner(cands, Anyone).value.lead.source,
        LatestSighting(cands),
        Payload(MergedValues(cands), MergedExtra(cands))),
      MergedOrigins(cands))
  }

  /** Two candidates supply the same thing for a slot. */
  predicate Agree(c: Candidate, d: Candidate, slot: Slot)
    requires Holds(c, slot) && Holds(d, slot)
  {
    match slot
    case Anyone => c.lead.source == d.lead.source
    case Extra(k) => c.lead.payload.extra[k] == d.lead.payload.extra[k]
    case Column(f) =>
      f == WebsiteDomain ||
      (c.origin == d.origin && c.lead.Get(f) == d.lead.Get(f) &&
       (f == Website ==> c.lead.Get(WebsiteDomain) == d.lead.Get(WebsiteDomain)))
  }

  /** Whenever the ranking cannot separate the best holders of a slot, they say the same thing. */
  ghost predicate TiesAgree(cands: seq<Candidate>) {
    forall c, d, slot :: Least(c, cands, slot) && Least(d, cands, slot) ==> Agree(c, d, slot)
  }

  ghost predicate SameMembers(a: seq<Candidate>, b: seq<Candidate>) {
    forall c :: c in a <==> c in b
  }

  /** With agreeing ties a merge depends on which candidates there are and on nothing else. */
  lemma MergeOfMembers(a: seq<Candidate>, b: seq<Candidate>)
    requires |a| > 0 && |b| > 0 && SameMembers(a, b) && TiesAgree(a)
    ensures MergeOf(a) == MergeOf(b)
  {
    hide RankLess, RankOf;
    forall slot: Slot
      ensures Winner(a, slot).Some? <==> Winner(b, slot).Some?
      ensures Winner(a, slot).Some? ==>
        Holds(Winner(a, slot).value, slot) && Holds(Winner(b, slot).value, slot) &&
        Agree(Winner(a, slot).value, Winner(b, slot).value, slot)
    {
      WinnerIsLeast(a, slot);
      WinnerIsLeast(b, slot);
      if Winner(b, slot).Some? {
        assert Least(Winner(b, slot).value, a, slot);
      }
    }
    LatestSightingIsMax(a);
    LatestSightingIsMax(b);
    WinnerIsLeast(a, Anyone);
    assert a[0] in a;
    assert Agree(Winner(a, Anyone).value, Winner(b, Anyone).value, Anyone);
    forall f: Field
      ensures Winner(a, SlotOf(f)).Some? <==> Winner(b, SlotOf(f)).Some?
      ensures Winner(a, SlotOf(f)).Some? ==>
        Winner(a, SlotOf(f)).value.origin == Winner(b, SlotOf(f)).value.origin &&
        Winner(a, SlotOf(f)).value.lead.Get(f) == Winner(b, SlotOf(f)).value.lead.Get(f)
    {
      assert Winner(a, SlotOf(f)).Some? ==>
        Agree(Winner(a, SlotOf(f)).value, Winner(b, SlotOf(f)).value, SlotOf(f));
    }
    assert MergedValues(a) == MergedValues(b);
    assert MergedOrigins(a) == MergedOrigins(b);
    assert ExtraKeys(a) == ExtraKeys(b);
    forall k | k in MergedExtra(a) || k in MergedExtra(b)
      ensures k in MergedExtra(a) && k in MergedExtra(b) && MergedExtra(a)[k] == MergedExtra(b)[k]
    {
      assert Agree(Winner(a, Extra(k)).value, Winner(b, Extra(k)).value, Extra(k));
    }
    assert MergedExtra(a) == MergedExtra(b);
  }

  lemma PermutationHasSameMembers(a: seq<Candidate>, b: seq<Candidate>)
    requires multiset(a) == multiset(b)
    ensures SameMembers(a, b) && |a| == |b|
  {
    assert |multiset(a)| == |a| && |multiset(b)| == |b|;
    forall c ensures c in a <==> c in b {
      assert c in a <==> c in multiset(a);
      assert c in b <==> c in multiset(b);
    }
  }

  ghost predicate OrderIndependent(cands: seq<Candidate>)
    requires |cands| > 0
  {
    forall p :: multiset(p) == multiset(cands) && |p| > 0 ==> MergeOf(p) == MergeOf(cands)
  }

  /** Any least holder of a slot wins it under some arrival order. */
  lemma PutFirst(c: Candidate, cands: seq<Candidate>, slot: Slot) returns (p: seq<Candidate>)
    requires Least(c, cands, slot)
    ensures multiset(p) == multiset(cands) && |p| > 0 && Winner(p, slot) == Some(c)
  {
    var i :| 0 <= i < |cands| && cands[i] == c;
    var rest := cands[..i] + cands[i + 1..];
    assert cands == cands[..i] + [c] + cands[i + 1..];
    p := [c] + rest;
    PermutationHasSameMembers(p, cands);
    LeastFirstWins(c, rest, slot);
  }

  /**
   * Arrival order never matters exactly when no two candidates tie for the best holder of a slot
   * while disagreeing about it.
   */
  lemma MergeIgnoresOrderExactlyWhenTiesAgree(cands: seq<Candidate>)
    requires |cands| > 0
    ensures OrderIndependent(cands) <==> TiesAgree(cands)
  {
    if TiesAgree(cands) {
      forall p | multiset(p) == multiset(cands) && |p| > 0 ensures MergeOf(p) == MergeOf(cands) {
        PermutationHasSameMembers(cands, p);
        MergeOfMembers(cands, p);
      }
    }
    if OrderIndependent(cands) {
      forall c, d, slot | Least(c, cands, slot) && Least(d, cands, slot)
        ensures Agree(c, d, slot)
      {
        var p := PutFirst(c, cands, slot);
        var q := PutFirst(d, cands, slot);
        assert MergeOf(p) == MergeOf(q);
        SameWinnersAgree(c, d, p, q, slot);
      }
    }
  }

  /** Equal merges force the winners of every slot to agree. */
  lemma {:induction false} SameWinnersAgree(c: Candidate, d: Candidate, a: seq<Candidate>, b: seq<Candidate>,
                                            slot: Slot)
    requires |a| > 0 && |b| > 0 && MergeOf(a) == MergeOf(b)
    requires Winner(a, slot) == Some(c) && Winner(b, slot) == Some(d)
    ensures Holds(c, slot) && Holds(d, slot) && Agree(c, d, slot)
  {
    WinnerIsLeast(a, slot);
    WinnerIsLeast(b, slot);
    match slot
    case Anyone =>
    case Extra(k) =>
      assert k in MergedExtra(a) && k in MergedExtra(b);
    case Column(f) =>
      if f != WebsiteDomain {
        assert SlotOf(f) == slot;
        assert MergedOrigins(a)[f] == c.origin && MergedOrigins(b)[f] == d.origin;
        assert f in MergedValues(a) && f in MergedValues(b);
        if f == Website {
          assert SlotOf(WebsiteDomain) == slot;
          assert WebsiteDomain in MergedValues(a) <==> c.lead.Get(WebsiteDomain).Some?;
          assert WebsiteDomain in MergedValues(b) <==> d.lead.Get(WebsiteDomain).Some?;
        }
      }
  }

  /** Ties do occur outside the store: two candidates of one origin, equally old and full, with two addresses. */
  lemma SameOriginDependsOnOrder(source: SourceRef, origin: string, a: string, b: string)
    requires a != b
    ensures var at := (email: string) =>
        Candidate(NormalizedLead(source, 0, Payload(map[Email := email], map[])), origin, 0);
      !OrderIndependent([at(a), at(b)])
  {
    hide RankLess;
    var c := Candidate(NormalizedLead(source, 0, Payload(map[Email := a], map[])), origin, 0);
    var d := Candidate(NormalizedLead(source, 0, Payload(map[Email := b], map[])), origin, 0);
    assert |map[Email := a]| == 1 && |map[Email := b]| == 1;
    assert RankOf(c) == RankOf(d);
    RankLessIsStrictOrder(RankOf(c), RankOf(c), RankOf(c));
    assert Least(c, [c, d], Column(Email)) && Least(d, [c, d], Column(Email));
    assert !Agree(c, d, Column(Email));
    MergeIgnoresOrderExactlyWhenTiesAgree([c, d]);
  }

  /** Distinct ranks, which distinct record ids guarantee, leave nothing to tie. */
  lemma DistinctRanksAgree(cands: seq<Candidate>)
    requires forall c, d :: c in cands && d in cands && RankOf(c) == RankOf(d) ==> c == d
    ensures TiesAgree(cands)
  {
    hide RankLess, RankOf;
    forall c, d, slot | Least(c, cands, slot) && Least(d, cands, slot) ensures Agree(c, d, slot) {
      RankLessIsStrictOrder(RankOf(c), RankOf(d), RankOf(c));
    }
  }

  // ---- priorities matter only by their order ----

  /** The same records, whose sources may have other names and other priorities in the same order. */
  ghost predicate Alike(a: seq<Candidate>, b: seq<Candidate>) {
    |a| == |b| &&
    (forall i :: 0 <= i < |a| ==>
      a[i].lead.payload == b[i].lead.payload && a[i].lead.collectedAt == b[i].lead.collectedAt &&
      a[i].origin == b[i].origin) &&
    (forall i, j :: 0 <= i < |a| && 0 <= j < |a| ==>
      (a[i].priority < a[j].priority <==> b[i].priority < b[j].priority))
  }

  lemma AlikeRankAlike(a: seq<Candidate>, b: seq<Candidate>, i: nat, j: nat)
    requires Alike(a, b) && i < |a| && j < |a|
    ensures RankLess(RankOf(a[i]), RankOf(a[j])) <==> RankLess(RankOf(b[i]), RankOf(b[j]))
  {
    hide OriginLess, KeyOfOrigin;
    assert a[i].priority < a[j].priority <==> b[i].priority < b[j].priority;
    assert a[j].priority < a[i].priority <==> b[j].priority < b[i].priority;
  }

  lemma AlikePrefix(a: seq<Candidate>, b: seq<Candidate>, slot: Slot)
    requires Alike(a, b)
    ensures |a| == |b|
    ensures a != [] ==>
      var last := |a| - 1;
      Alike(a[..last], b[..last]) && (Holds(a[last], slot) <==> Holds(b[last], slot))
  {
  }

  lemma {:induction false} AlikeWinners(a: seq<Candidate>, b: seq<Candidate>, slot: Slot) returns (i: nat)
    requires Alike(a, b)
    ensures Winner(a, slot).None? <==> Winner(b, slot).None?
    ensures Winner(a, slot).Some? ==>
      i < |a| == |b| && Winner(a, slot) == Some(a[i]) && Winner(b, slot) == Some(b[i])
  {
    hide RankLess, RankOf, Alike, Holds;
    i := 0;
    AlikePrefix(a, b, slot);
    if a != [] {
      var last := |a| - 1;
      i := AlikeWinners(a[..last], b[..last], slot);
      if Winner(a[..last], slot).Some? {
        AlikeRankAlike(a, b, last, i);
      }
      if Winner(a, slot) == Some(a[last]) && Winner(b, slot) == Some(b[last]) {
        i := last;
      }
    }
  }

  lemma {:induction false} AlikeSightings(a: seq<Candidate>, b: seq<Candidate>)
    requires Alike(a, b) && a != []
    ensures LatestSighting(a) == LatestSighting(b)
  {
    if |a| > 1 {
      AlikeSightings(a[..|a| - 1], b[..|b| - 1]);
    }
  }

  /** Like candidates merge to the same columns, extras, origins and time. */
  lemma AlikeMerge(a: seq<Candidate>, b: seq<Candidate>)
    requires Alike(a, b) && |a| > 0 && |b| > 0
    ensures MergeOf(a).lead.payload == MergeOf(b).lead.payload && MergeOf(a).origins == MergeOf(b).origins
    ensures MergeOf(a).lead.collectedAt == MergeOf(b).lead.collectedAt
  {
    hide Winner, Alike;
    AlikeSightings(a, b);
    forall f: Field
      ensures Winner(a, SlotOf(f)).Some? <==> Winner(b, SlotOf(f)).Some?
      ensures Winner(a, SlotOf(f)).Some? ==>
        Winner(a, SlotOf(f)).value.lead.payload == Winner(b, SlotOf(f)).value.lead.payload &&
        Winner(a, SlotOf(f)).value.origin == Winner(b, SlotOf(f)).value.origin
    {
      AlikeWinnersAgree(a, b, SlotOf(f));
    }
    assert MergedValues(a) == MergedValues(b);
    assert MergedOrigins(a) == MergedOrigins(b);
    forall k ensures k in MergedExtra(a) <==> k in MergedExtra(b)
      ensures k in MergedExtra(a) ==> MergedExtra(a)[k] == MergedExtra(b)[k]
    {
      AlikeWinnersAgree(a, b, Extra(k));
      WinnerHasKey(a, k);
      WinnerHasKey(b, k);
    }
    assert MergedExtra(a) == MergedExtra(b);
  }

  /** An extra key is merged exactly when it has a winner. */
  lemma WinnerHasKey(cands: seq<Candidate>, k: string)
    ensures k in MergedExtra(cands) <==> Winner(cands, Extra(k)).Some?
    ensures Winner(cands, Extra(k)).Some? ==> k in Winner(cands, Extra(k)).value.lead.payload.extra
  {
    hide Winner, RankLess;
    WinnerIsLeast(cands, Extra(k));
    if Winner(cands, Extra(k)).Some? {
      var c := Winner(cands, Extra(k)).value;
      assert c in cands && k in c.lead.payload.extra;
    }
  }

  lemma AlikeWinnersAgree(a: seq<Candidate>, b: seq<Candidate>, slot: Slot)
    requires Alike(a, b)
    ensures Winner(a, slot).Some? <==> Winner(b, slot).Some?
    ensures Winner(a, slot).Some? ==>
      Winner(a, slot).value.lead.payload == Winner(b, slot).value.lead.payload &&
      Winner(a, slot).value.origin == Winner(b, slot).value.origin
  {
    hide Winner;
    var i := AlikeWinners(a, b, slot);
  }

  // ---- the ranking in the candidates' own terms ----

  /**
   * No other may be preferred: a higher priority wins, then the later sighting, then more filled columns, then
   * the older record.
   */
  ghost predicate Outranks(c: Candidate, d: Candidate) {
    c.priority > d.priority ||
    (c.priority == d.priority &&
     (c.lead.collectedAt > d.lead.collectedAt ||
      (c.lead.collectedAt == d.lead.collectedAt &&
       (|c.lead.payload.values| > |d.lead.payload.values| ||
        (|c.lead.payload.values| == |d.lead.payload.values| &&
         forall i: nat, j: nat | c.origin == Decimal(i) && d.origin == Decimal(j) && i < Pow10(20) && j < Pow10(20) ::
           i <= j)))))
  }

  lemma UnbeatenOutranks(c: Candidate, d: Candidate)
    requires !RankLess(RankOf(d), RankOf(c))
    ensures Outranks(c, d)
  {
    hide Decimal, KeyOfOrigin, OriginLess, Pow10;
    forall i: nat, j: nat | c.origin == Decimal(i) && d.origin == Decimal(j) && i < Pow10(20) && j < Pow10(20) &&
      !OriginLess(KeyOfOrigin(d.origin), KeyOfOrigin(c.origin))
      ensures i <= j
    {
      OriginOrderIsNumeric(j, i);
    }
  }

  lemma WinnerOutranks(cands: seq<Candidate>, slot: Slot)
    ensures Winner(cands, slot).None? ==> forall d :: d in cands ==> !Holds(d, slot)
    ensures Winner(cands, slot).Some? ==>
      var c := Winner(cands, slot).value;
      c in cands && Holds(c, slot) && forall d :: d in cands && Holds(d, slot) ==> Outranks(c, d)
  {
    hide RankLess, RankOf, Holds, Outranks, Winner;
    WinnerIsLeast(cands, slot);
    if Winner(cands, slot).Some? {
      var c := Winner(cands, slot).value;
      forall d | d in cands && Holds(d, slot) ensures Outranks(c, d) {
        UnbeatenOutranks(c, d);
      }
    }
  }

  /**
   * Every column of a merge is that of a candidate no other holder of the column outranks, and is recorded as
   * coming from it; a column nobody holds is empty. The domain is that of whoever supplies the website.
   */
  lemma ColumnsComeFromTheBest(cands: seq<Candidate>, f: Field)
    requires |cands| > 0 && f != WebsiteDomain
    ensures var m := MergeOf(cands);
      if f in m.lead.payload.values then
        f in m.origins &&
        exists c :: c in cands && f in c.lead.payload.values && m.lead.payload.values[f] == c.lead.payload.values[f] &&
          m.origins[f] == c.origin && (f == Website ==> m.lead.Get(WebsiteDomain) == c.lead.Get(WebsiteDomain)) &&
          forall d :: d in cands && f in d.lead.payload.values ==> Outranks(c, d)
      else
        (forall d :: d in cands ==> f !in d.lead.payload.values) && f !in m.origins &&
        (f == Website ==> WebsiteDomain !in m.lead.payload.values)
  {
    hide Winner, Outranks;
    WinnerOutranks(cands, Column(f));
    assert SlotOf(f) == Column(f) && SlotOf(WebsiteDomain) == Column(Website);
    var m := MergeOf(cands);
    assert f in m.lead.payload.values <==> f in MergedValues(cands);
    if Winner(cands, Column(f)).Some? {
      var c := Winner(cands, Column(f)).value;
      assert Holds(c, Column(f));
      forall d | d in cands && f in d.lead.payload.values ensures Outranks(c, d) {
        assert Holds(d, Column(f));
      }
    } else {
      forall d | d in cands ensures f !in d.lead.payload.values {
        assert !Holds(d, Column(f));
      }
    }
  }

  /** So does every extra key, and a merge has all the keys that any candidate has; its source is the best one's. */
  lemma ExtrasComeFromTheBest(cands: seq<Candidate>, k: string)
    requires |cands| > 0
    ensures var m := MergeOf(cands);
      if k in m.lead.payload.extra then
        exists c :: c in cands && k in c.lead.payload.extra && m.lead.payload.extra[k] == c.lead.payload.extra[k] &&
          forall d :: d in cands && k in d.lead.payload.extra ==> Outranks(c, d)
      else forall d :: d in cands ==> k !in d.lead.payload.extra
    ensures exists c | c in cands && MergeOf(cands).lead.source == c.lead.source ::
        forall d :: d in cands ==> Outranks(c, d)
  {
    hide Winner, Outranks;
    WinnerOutranks(cands, Extra(k));
    WinnerHasKey(cands, k);
    if Winner(cands, Extra(k)).Some? {
      var c := Winner(cands, Extra(k)).value;
      assert Holds(c, Extra(k));
      forall d | d in cands && k in d.lead.payload.extra ensures Outranks(c, d) {
        assert Holds(d, Extra(k));
      }
    } else {
      forall d | d in cands ensures k !in d.lead.payload.extra {
        assert !Holds(d, Extra(k));
      }
    }
    WinnerOutranks(cands, Anyone);
    assert cands[0] in cands && Holds(cands[0], Anyone);
    forall d | d in cands ensures Holds(d, Anyone) {
    }
  }

  /** Each column and its recorded origin come from one candidate that no other holder outranks. */
  lemma MergedColumnHasOneOrigin(cands: seq<Candidate>, f: Field)
    requires |cands| > 0
    ensures var m := MergeOf(cands);
      if f in m.origins then
        exists c :: Least(c, cands, SlotOf(f)) && m.origins[f] == c.origin && m.lead.Get(f) == c.lead.Get(f)
      else m.lead.Get(f) == None && forall c :: c in cands ==> !Holds(c, SlotOf(f))
    ensures var m := MergeOf(cands);
      (Website in m.origins <==> WebsiteDomain in m.origins) &&
      (Website in m.origins ==> m.origins[Website] == m.origins[WebsiteDomain])
  {
    hide RankLess, RankOf;
    WinnerIsLeast(cands, SlotOf(f));
    assert SlotOf(Website) == SlotOf(WebsiteDomain);
    if Winner(cands, SlotOf(f)).Some? {
      var w := Winner(cands, SlotOf(f)).value;
      assert MergeOf(cands).origins[f] == w.origin && MergeOf(cands).lead.Get(f) == w.lead.Get(f);
    }
  }

  // ---- the algorithm: sort once, then scan for the first holder ----

  /** Stable: an equal rank goes after the candidates already placed. */
  function Place(sorted: seq<Candidate>, c: Candidate): seq<Candidate> {
    if sorted == [] then [c]
    else if RankLess(RankOf(c), RankOf(sorted[0])) then [c] + sorted
    else [sorted[0]] + Place(sorted[1..], c)
  }

  function SortByRank(cands: seq<Candidate>): seq<Candidate> {
    if cands == [] then [] else Place(SortByRank(cands[..|cands| - 1]), cands[|cands| - 1])
  }

  ghost predicate Ranked(s: seq<Candidate>) {
    forall i, j :: 0 <= i < j < |s| ==> !RankLess(RankOf(s[j]), RankOf(s[i]))
  }

  function FirstWith(ranked: seq<Candidate>, slot: Slot): Option<Candidate> {
    if ranked == [] then None
    else if Holds(ranked[0], slot) then Some(ranked[0])
    else FirstWith(ranked[1..], slot)
  }

  lemma {:induction false} PlaceAdds(s: seq<Candidate>, c: Candidate)
    ensures multiset(Place(s, c)) == multiset(s) + multiset{c}
    ensures forall d :: d in Place(s, c) <==> d == c || d in s
  {
    hide RankLess, RankOf;
    if s != [] {
      assert s == [s[0]] + s[1..];
      PlaceAdds(s[1..], c);
    }
  }

  /** `c` is not after any of `s`. */
  ghost predicate NoneBefore(c: Candidate, s: seq<Candidate>) {
    forall d :: d in s ==> !RankLess(RankOf(d), RankOf(c))
  }

  lemma RankedCons(c: Candidate, s: seq<Candidate>)
    ensures Ranked([c] + s) <==> NoneBefore(c, s) && Ranked(s)
  {
    hide RankLess, RankOf;
    var t := [c] + s;
    assert forall i :: 0 <= i < |s| ==> t[i + 1] == s[i];
    if Ranked(t) {
      forall i, j | 0 <= i < j < |s| ensures !RankLess(RankOf(s[j]), RankOf(s[i])) {
        assert t[i + 1] == s[i] && t[j + 1] == s[j];
      }
      forall d | d in s ensures !RankLess(RankOf(d), RankOf(c)) {
        var i :| 0 <= i < |s| && s[i] == d;
        assert t[i + 1] == d && t[0] == c;
      }
    }
  }

  lemma {:induction false} PlaceKeepsRanked(s: seq<Candidate>, c: Candidate)
    requires Ranked(s)
    ensures Ranked(Place(s, c))
  {
    hide RankLess, RankOf;
    if s == [] {
      RankedCons(c, []);
      assert [c] == [c] + [];
    } else {
      assert s == [s[0]] + s[1..];
      RankedCons(s[0], s[1..]);
      RankedCons(c, s);
      if RankLess(RankOf(c), RankOf(s[0])) {
        forall d | d in s ensures !RankLess(RankOf(d), RankOf(c)) {
          RankLessIsStrictOrder(RankOf(d), RankOf(c), RankOf(s[0]));
        }
      } else {
        PlaceKeepsRanked(s[1..], c);
        PlaceAdds(s[1..], c);
        RankedCons(s[0], Place(s[1..], c));
      }
    }
  }

  lemma {:induction false} FirstWithPlaced(s: seq<Candidate>, c: Candidate, slot: Slot)
    requires Ranked(s)
    ensures FirstWith(Place(s, c), slot) == Better(FirstWith(s, slot), Offer(c, slot))
  {
    hide RankLess, RankOf;
    if s != [] {
      var rest := s[1..];
      if RankLess(RankOf(c), RankOf(s[0])) {
        assert ([c] + s)[1..] == s;
        FirstWithRanked(s, slot);
        if FirstWith(s, slot).Some? {
          RankLessIsStrictOrder(RankOf(FirstWith(s, slot).value), RankOf(c), RankOf(s[0]));
          RankLessIsStrictOrder(RankOf(c), RankOf(s[0]), RankOf(FirstWith(s, slot).value));
        }
      } else {
        assert Place(s, c)[1..] == Place(rest, c);
        FirstWithPlaced(rest, c, slot);
      }
    }
  }

  lemma {:induction false} FirstWithRanked(s: seq<Candidate>, slot: Slot)
    requires Ranked(s) && s != []
    ensures FirstWith(s, slot).Some? ==>
      (FirstWith(s, slot).value in s && !RankLess(RankOf(FirstWith(s, slot).value), RankOf(s[0])))
  {
    hide RankLess, RankOf;
    RankLessIsStrictOrder(RankOf(s[0]), RankOf(s[0]), RankOf(s[0]));
    if !Holds(s[0], slot) && |s| > 1 {
      FirstWithRanked(s[1..], slot);
      if FirstWith(s, slot).Some? {
        var j :| 0 <= j < |s[1..]| && s[1..][j] == FirstWith(s, slot).value;
        assert s[j + 1] == s[1..][j];
      }
    }
  }

  /** Sorting permutes the candidates, and scanning the sorted list finds the winner of each slot. */
  lemma {:induction false} SortFindsWinners(cands: seq<Candidate>)
    ensures Ranked(SortByRank(cands)) && multiset(SortByRank(cands)) == multiset(cands)
    ensures forall slot :: FirstWith(SortByRank(cands), slot) == Winner(cands, slot)
  {
    hide RankLess, RankOf;
    if cands != [] {
      var init, last := cands[..|cands| - 1], cands[|cands| - 1];
      assert cands == init + [last];
      SortFindsWinners(init);
      PlaceKeepsRanked(SortByRank(init), last);
      PlaceAdds(SortByRank(init), last);
      forall slot: Slot ensures FirstWith(SortByRank(cands), slot) == Winner(cands, slot) {
        FirstWithPlaced(SortByRank(init), last, slot);
      }
    }
  }

  method Merge(candidates: seq<Candidate>) returns (merged: Option<MergedLead>)
    ensures merged == if candidates == [] then None else Some(MergeOf(candidates))
  {
    if candidates == [] {
      return None;
    }
    var ranked := SortByRank(candidates);
    SortFindsWinners(candidates);
    PermutationHasSameMembers(ranked, candidates);

    var values, origins := FillColumns(ranked);
    assert values == MergedValues(candidates);
    assert origins == MergedOrigins(candidates);

    var extra := OverlayExtras(ranked);
    assert extra == MergedExtra(candidates) by {
      forall k ensures k in extra <==> k in MergedExtra(candidates) {
        WinnerIsLeast(candidates, Extra(k));
      }
    }

    var latest := Latest(candidates);
    assert FirstWith(ranked, Anyone) == Some(ranked[0]);
    merged := Some(MergedLead(NormalizedLead(ranked[0].lead.source, latest, Payload(values, extra)), origins));
  }

  /** Every single-valued column from its first holder, then website and domain together. */
  method FillColumns(ranked: seq<Candidate>) returns (values: map<Field, string>, origins: map<Field, string>)
    ensures forall f :: f in origins <==> FirstWith(ranked, SlotOf(f)).Some?
    ensures forall f :: f in origins ==> origins[f] == FirstWith(ranked, SlotOf(f)).value.origin
    ensures forall f :: f in values <==>
      FirstWith(ranked, SlotOf(f)).Some? && f in FirstWith(ranked, SlotOf(f)).value.lead.payload.values
    ensures forall f :: f in values ==> values[f] == FirstWith(ranked, SlotOf(f)).value.lead.payload.values[f]
  {
    values, origins := map[], map[];
    for i := 0 to |SINGLE_FIELDS|
      invariant forall f :: f in values <==> f in SINGLE_FIELDS[..i] && FirstWith(ranked, Column(f)).Some?
      invariant origins.Keys == values.Keys
      invariant forall f :: f in values ==>
        origins[f] == FirstWith(ranked, Column(f)).value.origin &&
        FirstWith(ranked, Column(f)).value.lead.Get(f) == Some(values[f])
    {
      var name := SINGLE_FIELDS[i];
      var winner := FirstWith(ranked, Column(name));
      FirstWithHolds(ranked, Column(name));
      if winner.Some? {
        values := values[name := winner.value.lead.payload.values[name]];
        origins := origins[name := winner.value.origin];
      }
    }
    SingleFieldsAreTheRest();
    forall f: Field {
      FirstWithHolds(ranked, Column(f));
    }

    var websiteWinner := FirstWith(ranked, Column(Website));
    if websiteWinner.Some? {
      var w := websiteWinner.value;
      values := values[Website := w.lead.payload.values[Website]];
      if WebsiteDomain in w.lead.payload.values {
        values := values[WebsiteDomain := w.lead.payload.values[WebsiteDomain]];
      }
      origins := origins[Website := w.origin][WebsiteDomain := w.origin];
    }
  }

  lemma SingleFieldsAreTheRest()
    ensures forall f: Field :: f in SINGLE_FIELDS[..|SINGLE_FIELDS|] <==> f != Website && f != WebsiteDomain
  {
    assert SINGLE_FIELDS[..|SINGLE_FIELDS|] == SINGLE_FIELDS;
    assert SINGLE_FIELDS[0] == CompanyName && SINGLE_FIELDS[1] == ContactName && SINGLE_FIELDS[2] == Email;
    assert SINGLE_FIELDS[3] == Phone && SINGLE_FIELDS[4] == Address;
    assert SINGLE_FIELDS[5] == City && SINGLE_FIELDS[6] == Country;
  }

  lemma {:induction false} FirstWithHolds(ranked: seq<Candidate>, slot: Slot)
    ensures FirstWith(ranked, slot).Some? ==> Holds(FirstWith(ranked, slot).value, slot)
  {
    if ranked != [] && !Holds(ranked[0], slot) {
      FirstWithHolds(ranked[1..], slot);
    }
  }

  /** Applied from worst to best, so for every key the best holder is written last. */
  method OverlayExtras(ranked: seq<Candidate>) returns (extra: map<string, Option<string>>)
    ensures forall k :: k in extra <==> FirstWith(ranked, Extra(k)).Some?
    ensures forall k :: k in extra ==>
      k in FirstWith(ranked, Extra(k)).value.lead.payload.extra &&
      extra[k] == FirstWith(ranked, Extra(k)).value.lead.payload.extra[k]
  {
    extra := map[];
    var i := |ranked|;
    while i > 0
      invariant 0 <= i <= |ranked|
      invariant forall k :: k in extra <==> FirstWith(ranked[i..], Extra(k)).Some?
      invariant forall k :: k in extra ==>
        k in FirstWith(ranked[i..], Extra(k)).value.lead.payload.extra &&
        extra[k] == FirstWith(ranked[i..], Extra(k)).value.lead.payload.extra[k]
    {
      i := i - 1;
      assert ranked[i..][1..] == ranked[i + 1..];
      extra := extra + ranked[i].lead.payload.extra;
    }
    assert ranked[0..] == ranked;
  }

  method Latest(cands: seq<Candidate>) returns (latest: int)
    requires |cands| > 0
    ensures latest == LatestSighting(cands)
  {
    latest := cands[0].lead.collectedAt;
    for i := 1 to |cands|
      invariant latest == LatestSighting(cands[..i])
    {
      assert cands[..i + 1][..i] == cands[..i];
      if latest < cands[i].lead.collectedAt {
        latest := cands[i].lead.collectedAt;
      }
    }
    assert cands[..|cands|] == cands;
  }
}
