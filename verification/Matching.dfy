/** Deciding whether two leads are the same company (app/deduplication/matcher.py). */
module Matching {
  import opened Text
  import opened Domain
  import opened Fingerprint

  datatype MatchRule = ByEmail | ByWebsite | ByPhone | ByNameLocation | ByExternalId

  const NAME_SIMILARITY_THRESHOLD := 0.7
  const NAME_CONFIDENCE_CAP := 0.8
  const AUTO_MERGE_THRESHOLD := 0.85

  function ExactConfidence(rule: MatchRule): real
    requires rule != ByNameLocation
  {
    match rule
    case ByEmail => 1.0
    case ByWebsite => 0.95
    case ByPhone => 0.9
    case ByExternalId => 1.0
  }

  datatype MatchResult = MatchResult(rule: MatchRule, confidence: real, autoMerge: bool)

  function ResultFor(rule: MatchRule, confidence: real): MatchResult {
    MatchResult(rule, confidence, confidence >= AUTO_MERGE_THRESHOLD)
  }

  predicate Shared(a: Option<string>, b: Option<string>) {
    a.Some? && a == b
  }

  function MatchNameLocation(a: Fingerprints, b: Fingerprints): Option<MatchResult> {
    if a.nameSlug.None? || b.nameSlug.None? then None
    else if a.location.None? || a.location != b.location then None
    else
      var score := Similarity(a.nameSlug.value, b.nameSlug.value);
      if score < NAME_SIMILARITY_THRESHOLD then None
      else Some(ResultFor(ByNameLocation, if score < NAME_CONFIDENCE_CAP then score else NAME_CONFIDENCE_CAP))
  }

  function Match(left: NormalizedLead, right: NormalizedLead): Option<MatchResult> {
    var a, b := FingerprintsOf(left), FingerprintsOf(right);
    if Shared(a.email, b.email) then Some(ResultFor(ByEmail, ExactConfidence(ByEmail)))
    else if Shared(a.domain, b.domain) then Some(ResultFor(ByWebsite, ExactConfidence(ByWebsite)))
    else if Shared(a.phone, b.phone) then Some(ResultFor(ByPhone, ExactConfidence(ByPhone)))
    else if MatchNameLocation(a, b).Some? then MatchNameLocation(a, b)
    else if left.source.name == right.source.name && Shared(a.externalId, b.externalId)
    then Some(ResultFor(ByExternalId, ExactConfidence(ByExternalId)))
    else None
  }

  lemma MatchIsSymmetric(left: NormalizedLead, right: NormalizedLead)
    ensures Match(left, right) == Match(right, left)
  {
    hide FingerprintsOf, Similarity, ExactConfidence;
    var a, b := FingerprintsOf(left), FingerprintsOf(right);
    if a.nameSlug.Some? && b.nameSlug.Some? {
      SimilarityLaws(a.nameSlug.value, b.nameSlug.value);
    }
  }

  /** Only a similar name is not enough to merge; every exact rule is, and it outscores any name. */
  lemma NameAloneNeverMerges(left: NormalizedLead, right: NormalizedLead)
    requires Match(left, right).Some?
    ensures var m := Match(left, right).value;
      (m.autoMerge <==> m.rule != ByNameLocation) &&
      (m.rule == ByNameLocation ==> 0.7 <= m.confidence <= 0.8) &&
      (m.rule != ByNameLocation ==> 0.9 <= m.confidence <= 1.0)
  {
  }

  function AtMostCap(score: real): real {
    if score <= 0.8 then score else 0.8
  }

  /**
   * Two leads match by name exactly when they share no email, domain or phone, have slugs and an equal place, and
   * the slugs are similar to 0.7 at least; the confidence is then the similarity, or 0.8 if that is less.
   */
  lemma NameMatchExactly(left: NormalizedLead, right: NormalizedLead)
    ensures var a, b, m := FingerprintsOf(left), FingerprintsOf(right), Match(left, right);
      (m.Some? && m.value.rule == ByNameLocation <==>
        !(a.email.Some? && a.email == b.email) && !(a.domain.Some? && a.domain == b.domain) &&
        !(a.phone.Some? && a.phone == b.phone) &&
        a.nameSlug.Some? && b.nameSlug.Some? && a.location.Some? && a.location == b.location &&
        Similarity(a.nameSlug.value, b.nameSlug.value) >= 0.7) &&
      (m.Some? && m.value.rule == ByNameLocation ==>
        var score := Similarity(a.nameSlug.value, b.nameSlug.value);
        m.value.confidence == (if score < 0.8 then score else 0.8) && !m.value.autoMerge)
  {
    hide FingerprintsOf, Similarity;
  }

  /** The confidence of one rule on its own, if what it compares coincides. */
  function Worth(left: NormalizedLead, right: NormalizedLead, rule: MatchRule): Option<real> {
    var a, b := FingerprintsOf(left), FingerprintsOf(right);
    match rule
    case ByEmail => if Shared(a.email, b.email) then Some(1.0) else None
    case ByWebsite => if Shared(a.domain, b.domain) then Some(0.95) else None
    case ByPhone => if Shared(a.phone, b.phone) then Some(0.9) else None
    case ByNameLocation =>
      if a.nameSlug.Some? && b.nameSlug.Some? && a.location.Some? && a.location == b.location &&
         Similarity(a.nameSlug.value, b.nameSlug.value) >= 0.7
      then Some(AtMostCap(Similarity(a.nameSlug.value, b.nameSlug.value)))
      else None
    case ByExternalId =>
      if left.source.name == right.source.name && Shared(a.externalId, b.externalId) then Some(1.0) else None
  }

  /** An identifier of the same source is shared, but a weaker rule is asked first. */
  predicate IdentifierComesLast(left: NormalizedLead, right: NormalizedLead) {
    Worth(left, right, ByExternalId).Some? && Worth(left, right, ByEmail).None? &&
    (Worth(left, right, ByWebsite).Some? || Worth(left, right, ByPhone).Some? ||
     Worth(left, right, ByNameLocation).Some?)
  }

  /**
   * Two leads match exactly when some rule applies to them, by a rule that does. Although the first rule in
   * order decides, it is the one of highest confidence too, unless a shared identifier comes after a weaker rule.
   */
  lemma {:induction false} FirstRuleIsStrongestUnlessIdentifierShared(left: NormalizedLead, right: NormalizedLead)
    ensures Match(left, right).None? <==> forall rule :: Worth(left, right, rule).None?
    ensures Match(left, right).Some? ==>
      var m := Match(left, right).value;
      Worth(left, right, m.rule) == Some(m.confidence) &&
      ((forall rule :: Worth(left, right, rule).Some? ==> Worth(left, right, rule).value <= m.confidence) <==>
        !IdentifierComesLast(left, right))
  {
    hide FingerprintsOf, Similarity;
    var w := Worth(left, right, ByExternalId);
    if Match(left, right).None? {
      forall rule ensures Worth(left, right, rule).None? {
      }
    } else {
      var m := Match(left, right).value;
      assert Worth(left, right, m.rule) == Some(m.confidence);
      if IdentifierComesLast(left, right) {
        assert w.value > m.confidence;
      }
    }
  }

  /**
   * Two spellings of one company in one place, with no shared email, domain or phone, score exactly
   * the cap and are left for review, whichever side is incoming.
   */
  lemma SameNameSamePlaceNeedsReview(left: NormalizedLead, right: NormalizedLead)
    requires left.Get(CompanyName).Some? && right.Get(CompanyName).Some?
    requires SameCompanyName(left.Get(CompanyName).value, right.Get(CompanyName).value)
    requires var a, b := FingerprintsOf(left), FingerprintsOf(right);
      a.nameSlug.Some? && a.location.Some? && a.location == b.location &&
      !Shared(a.email, b.email) && !Shared(a.domain, b.domain) && !Shared(a.phone, b.phone)
    ensures Match(left, right) == Some(MatchResult(ByNameLocation, 0.8, false))
    ensures Match(right, left) == Match(left, right)
  {
    SlugIdentifiesCompanyName(left.Get(CompanyName).value, right.Get(CompanyName).value);
    EqualSlugsScoreOne(left.Get(CompanyName).value);
    MatchIsSymmetric(left, right);
  }
}
