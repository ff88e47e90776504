/**
 * Which shared values create a match, as they came from the source (app/normalization/email.py, phone.py, url.py,
 * app/deduplication/fingerprint.py). A value that names nobody should create none.
 */
module Placeholders {
  import opened Text
  import opened Domain
  import opened Emails
  import opened Hosts
  import opened Fingerprint
  import opened Matching

  /** No rule but this one applies to the two leads. */
  ghost predicate SharesAtMost(left: NormalizedLead, right: NormalizedLead, rule: MatchRule) {
    forall other :: other != rule ==> Worth(left, right, other).None?
  }

  // ---- emails ----

  lemma {:induction false} CollapseKeeps(s: string, c: char)
    requires !IsSpace(c)
    ensures c in Collapse(s) <==> c in s
  {
    if s != "" {
      CollapseKeeps(s[1..], c);
      assert s == [s[0]] + s[1..];
    }
  }

  lemma {:induction false} StripLeftKeeps(s: string, c: char)
    requires !IsSpace(c)
    ensures c in StripLeft(s) <==> c in s
  {
    if s != "" && IsSpace(s[0]) {
      StripLeftKeeps(s[1..], c);
      assert s == [s[0]] + s[1..];
    }
  }

  lemma {:induction false} StripRightKeeps(s: string, c: char)
    requires !IsSpace(c)
    ensures c in StripRight(s) <==> c in s
  {
    if s != "" && IsSpace(s[|s| - 1]) {
      StripRightKeeps(s[..|s| - 1], c);
      assert s == s[..|s| - 1] + [s[|s| - 1]];
    }
  }

  lemma StripKeeps(s: string, c: char)
    requires !IsSpace(c)
    ensures c in Strip(s) <==> c in s
  {
    StripLeftKeeps(s, c);
    StripRightKeeps(StripLeft(s), c);
  }

  lemma {:induction false} StripBracketsLeftKeeps(s: string, c: char)
    requires !IsBracket(c)
    ensures c in StripBracketsLeft(s) <==> c in s
  {
    if s != "" && IsBracket(s[0]) {
      StripBracketsLeftKeeps(s[1..], c);
      assert s == [s[0]] + s[1..];
    }
  }

  lemma {:induction false} StripBracketsRightKeeps(s: string, c: char)
    requires !IsBracket(c)
    ensures c in StripBracketsRight(s) <==> c in s
  {
    if s != "" && IsBracket(s[|s| - 1]) {
      StripBracketsRightKeeps(s[..|s| - 1], c);
      assert s == s[..|s| - 1] + [s[|s| - 1]];
    }
  }

  /** Normalising an email neither adds nor loses an `@`. */
  lemma NormalizingKeepsAt(raw: string)
    ensures (NormalizeEmail(raw).Some? && '@' in NormalizeEmail(raw).value) <==> '@' in raw
  {
    hide Strip, StripBrackets, Collapse, IsBracket, IsSpace;
    var c, at := CleanText(raw), '@';
    assert !IsSpace(at) && !IsBracket(at) by { AtIsPlain(); }
    CollapseKeeps(raw, at);
    StripKeeps(Collapse(raw), at);
    var m := RemoveMailto(c);
    assert at in m <==> at in c by {
      if MAILTO <= c {
        assert c == MAILTO + m;
        assert at !in MAILTO;
      }
    }
    StripKeeps(m, at);
    BracketsKeep(Strip(m), at);
    StripKeeps(StripBrackets(Strip(m)), at);
    LowerKeepsAt(Trimmed(raw));
  }

  lemma BracketsKeep(s: string, c: char)
    requires !IsBracket(c)
    ensures c in StripBrackets(s) <==> c in s
  {
    StripBracketsLeftKeeps(s, c);
    StripBracketsRightKeeps(StripBracketsLeft(s), c);
  }

  lemma AtIsPlain()
    ensures !IsSpace('@') && !IsBracket('@')
  {
  }

  lemma LowerKeepsAt(s: string)
    ensures '@' in Lower(s) <==> '@' in s
  {
    if '@' in s {
      var i :| 0 <= i < |s| && s[i] == '@';
      assert Lower(s)[i] == '@';
    }
  }

  /** Two leads that share an email text and nothing else match exactly when it has an `@`, and are then merged. */
  lemma SharedEmailMatchesExactlyWithAt(left: NormalizedLead, right: NormalizedLead, raw: string)
    requires left.Get(Email) == right.Get(Email) == NormalizeEmail(raw) && SharesAtMost(left, right, ByEmail)
    ensures Match(left, right).Some? <==> '@' in raw
    ensures Match(left, right).Some? ==> Match(left, right).value.autoMerge
  {
    hide NormalizeEmail, Match;
    NormalizingKeepsAt(raw);
    OneRuleDecides(left, right, ByEmail);
  }

  /** If at most one rule can apply, the leads match exactly when it does, and merge unless it is the name. */
  lemma OneRuleDecides(left: NormalizedLead, right: NormalizedLead, rule: MatchRule)
    requires SharesAtMost(left, right, rule)
    ensures Match(left, right).Some? <==> Worth(left, right, rule).Some?
    ensures Match(left, right).Some? ==>
      Match(left, right).value.rule == rule && (Match(left, right).value.autoMerge <==> rule != ByNameLocation)
  {
    hide Match, Worth;
    FirstRuleIsStrongestUnlessIdentifierShared(left, right);
    if Match(left, right).Some? {
      NameAloneNeverMerges(left, right);
    }
  }

  // ---- phones ----

  /** `e164` is the phone library: the international form of a text that is a valid number. */
  function NormalizePhone(raw: string, e164: string -> Option<string>): Option<string> {
    var text := CleanText(raw);
    if text == "" then None else if e164(text).Some? then e164(text) else Some(text)
  }

  /** The same for phones: exactly a valid number matches, or any other text that begins with a plus sign. */
  lemma SharedPhoneMatchesExactlyWithPlus(
    left: NormalizedLead, right: NormalizedLead, raw: string, e164: string -> Option<string>)
    requires forall text :: e164(text).Some? ==> "+" <= e164(text).value
    requires left.Get(Phone) == right.Get(Phone) == NormalizePhone(raw, e164) && SharesAtMost(left, right, ByPhone)
    ensures var text := CleanText(raw);
      Match(left, right).Some? <==> text != "" && (e164(text).Some? || "+" <= text)
    ensures Match(left, right).Some? ==> Match(left, right).value.autoMerge
  {
    hide CleanText, Match;
    OneRuleDecides(left, right, ByPhone);
  }

  // ---- websites ----

  /** The same for websites, whatever the URL library makes of them: exactly one that leaves a domain matches. */
  lemma SharedWebsiteMatchesExactlyWithDomain(
    left: NormalizedLead, right: NormalizedLead, raw: string, domainOf: string -> Option<string>)
    requires left.Get(WebsiteDomain) == right.Get(WebsiteDomain) == domainOf(raw) &&
      SharesAtMost(left, right, ByWebsite)
    ensures Match(left, right).Some? <==> domainOf(raw).Some?
    ensures Match(left, right).Some? ==> Match(left, right).value.autoMerge
  {
    hide Match;
    OneRuleDecides(left, right, ByWebsite);
  }

  /**
   * A website leaves a domain exactly when it names any host at all after `//`, or when, without a scheme, it
   * begins with a well-formed host whose port can be read. With the scheme written out even `https://-` does.
   */
  lemma TextLeavesDomainExactlyWithHost(text: string, tail: string -> string)
    requires TailStops(tail)
    ensures DomainOfText(text, tail).Some? <==>
      UrlHost(text).Some? ||
      (!Contains(text, "://") && !IsForeign(text) && UrlHost(HTTPS + text).Some? &&
       WellFormed(UrlHost(HTTPS + text).value) && PortOk(UrlPort(HTTPS + text)))
  {
    hide WellFormed, WithoutWww, DomainOfText, UrlHost, UrlPort, Contains, IsForeign, PortOk;
    DomainOfAnyText(text, tail);
  }

  // ---- names ----

  lemma {:induction false} SuffixesOnly(ws: seq<string>)
    ensures StripSuffixes(ws) == [] <==> forall w :: w in ws ==> w in LEGAL_SUFFIXES
  {
    if ws != [] {
      var init, last := ws[..|ws| - 1], ws[|ws| - 1];
      assert ws == init + [last];
      if last in LEGAL_SUFFIXES {
        SuffixesOnly(init);
      } else {
        assert last in ws;
      }
    }
  }

  lemma SlugExactlyWithWord(name: string)
    ensures CompanySlug(Some(name)).Some? <==> exists w :: w in Words(name) && w !in LEGAL_SUFFIXES
  {
    SuffixesOnly(Words(name));
    SplitGivesWords(Lower(name), "");
    var core := StripSuffixes(Words(name));
    var tail := StripSplits(Words(name));
    assert core != [] ==> IsWord(core[0]) by { assert core != [] ==> core[0] == Words(name)[0]; }
    JoinIsEmptyExactly(core);
  }

  lemma JoinIsEmptyExactly(ws: seq<string>)
    requires ws != [] ==> ws[0] != ""
    ensures Join(ws) == "" <==> ws == []
  {
  }

  /**
   * Two leads in one place that share a name and nothing else match exactly when the name has a word that is no
   * legal suffix, as `n/a` has two; but they are only ever left for review.
   */
  lemma SharedNameMatchesExactlyWithWord(left: NormalizedLead, right: NormalizedLead, name: string)
    requires left.Get(CompanyName) == right.Get(CompanyName) == Some(name) && SharesAtMost(left, right, ByNameLocation)
    requires FingerprintsOf(left).location.Some? && FingerprintsOf(left).location == FingerprintsOf(right).location
    ensures Match(left, right).Some? <==> exists w :: w in Words(name) && w !in LEGAL_SUFFIXES
    ensures Match(left, right).Some? ==> !Match(left, right).value.autoMerge
  {
    hide Match, LocationKey, CompanySlug, Similarity, Words;
    OneRuleDecides(left, right, ByNameLocation);
    SlugExactlyWithWord(name);
    if CompanySlug(Some(name)).Some? {
      EqualSlugsScoreOne(name);
    }
  }

  // ---- placeholders that do and do not match ----

  /** A lead with one value and nothing else to match by. */
  function Bearing(f: Field, value: string): NormalizedLead {
    NormalizedLead(SourceRef("s", None), 0, Payload(map[f := value], map[]))
  }

  /** `@`, a phone of which only the country code was given, and `https://-` each merge two leads on their own. */
  lemma PlaceholdersThatMerge(e164: string -> Option<string>, tail: string -> string)
    requires TailStops(tail) && e164("+358").None?
    ensures NormalizeEmail("@") == Some("@") && NormalizePhone("+358", e164) == Some("+358")
    ensures DomainOfText("https://-", tail) == Some("-")
    ensures forall f, v :: (f, v) in {(Email, "@"), (Phone, "+358"), (WebsiteDomain, "-")} ==>
      Match(Bearing(f, v), Bearing(f, v)).Some? && Match(Bearing(f, v), Bearing(f, v)).value.autoMerge
  {
    hide WellFormed, DomainOfText, NormalizeEmail, CleanText;
    PlainEmailIsKept("@");
    CleanIsKept("+358");
    DashIsKept(tail);
  }

  lemma DashIsKept(tail: string -> string)
    requires TailStops(tail)
    ensures DomainOfText("https://-", tail) == Some("-")
  {
    hide WellFormed, DomainOfText, UrlHost, UrlPort, Contains, IsForeign, PortOk, Before, Authority, SchemePart;
    assert "https" + "://" + "-" + "" + "" == "https://-" && Lower("-") == "-";
    SplitsBack("https", "-", "", "");
    assert UrlHost("https://-") == Some("-");
    assert "https" + "://" + "-" == "https://-";
    WebIsNotForeign("https", "-");
    assert CandidateUrl("https://-") == "https://-";
    OneLabel("-");
    DomainOfAnyText("https://-", tail);
    assert WithoutWww("-") == "-";
  }

  /** `n/a` and `-` leave no email key, no phone key and no domain. */
  lemma PlaceholdersThatDoNot(text: string, e164: string -> Option<string>, tail: string -> string)
    requires TailStops(tail) && (text == "n/a" || text == "-") && e164(text).None?
    ensures NormalizeEmail(text) == Some(text) && NormalizePhone(text, e164) == Some(text)
    ensures DomainOfText(text, tail) == None
    ensures forall f :: f == Email || f == Phone ==> Match(Bearing(f, text), Bearing(f, text)) == None
  {
    hide WellFormed, DomainOfText, NormalizeEmail, CleanText;
    PlainEmailIsKept(text);
    CleanIsKept(text);
    PlaceholderLeavesNoDomain(text, tail);
  }

  lemma PlaceholderLeavesNoDomain(text: string, tail: string -> string)
    requires TailStops(tail) && (text == "n/a" || text == "-")
    ensures DomainOfText(text, tail) == None
  {
    hide WellFormed, DomainOfText;
    if text == "-" {
      OneLabel("-");
      assert Lower("-") == "-";
      IllFormedLeavesNoDomain("-", "", tail);
      assert "-" + "" == "-";
    } else {
      OneLabel("n");
      assert Lower("n") == "n";
      IllFormedLeavesNoDomain("n", "/a", tail);
      assert "n" + "/a" == "n/a";
    }
  }

  lemma IllFormedLeavesNoDomain(host: string, rest: string, tail: string -> string)
    requires TailStops(tail) && host != "" && Unseparated(host) && !WellFormed(Lower(host))
    requires (rest == "" || rest[0] in STOPS) && ':' !in rest
    ensures DomainOfText(host + rest, tail) == None
  {
    hide WellFormed, DomainOfText, UrlHost, UrlPort, PortOk, IsForeign, Contains, Before, Authority, AfterAuthority,
      SchemePart, WithoutWww;
    var text := host + rest;
    SplitsBack("https", host, "", rest);
    assert "https" + "://" + host + "" + rest == HTTPS + text;
    NoColonNoMark(text);
    assert !("//" <= text) by { assert text[0] == host[0] && host[0] in host; }
    NoHostWithoutSlashes(text);
    DomainOfAnyText(text, tail);
  }

  lemma NoHostWithoutSlashes(text: string)
    requires ':' !in text && !("//" <= text)
    ensures UrlHost(text) == None
  {
    BeforeNothing(text, {':'});
    BeforeNothing("", {':'});
    assert Authority(text) == "" && AfterAt("") == "" && Lower("") == "";
  }
}
