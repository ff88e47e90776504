/** The domain kept of a website (app/normalization/url.py), on text without brackets or percent signs. */
module Hosts {
  import opened Text
  import opened Emails
  import opened Fingerprint
  import opened OriginKeys

  // ---- well-formed host names ----

  /** The parts of a host between its dots. */
  function Labels(host: string): (labels: seq<string>)
    ensures |labels| > 0
  {
    if host == "" then [""]
    else
      var rest := Labels(host[1..]);
      if host[0] == '.' then [""] + rest else [[host[0]] + rest[0]] + rest[1..]
  }

  predicate IsLabel(w: string) {
    w != "" && AlNum(w[0]) && AlNum(w[|w| - 1]) && forall i :: 0 <= i < |w| ==> AlNum(w[i]) || w[i] == '-'
  }

  /** What the pattern for host names accepts: at least two labels. */
  predicate WellFormed(host: string) {
    |Labels(host)| >= 2 && forall w :: w in Labels(host) ==> IsLabel(w)
  }

  const WWW := "www."

  function WithoutWww(host: string): string {
    if WWW <= host then host[|WWW|..] else host
  }

  // ---- splitting a URL (urllib.parse.urlsplit) ----

  const STOPS: set<char> := {'/', '?', '#'}

  /** What comes before the first of these characters. */
  function Before(s: string, stops: set<char>): (head: string)
    ensures |head| <= |s|
  {
    if s == "" || s[0] in stops then "" else [s[0]] + Before(s[1..], stops)
  }

  predicate IsLetter(c: char) {
    'a' <= LowerChar(c) <= 'z'
  }

  predicate SchemeChar(c: char) {
    IsLetter(c) || IsDigit(c) || c == '+' || c == '-' || c == '.'
  }

  /** The text before the first colon, if it can be a scheme. */
  function SchemePart(url: string): string {
    var head := Before(url, {':'});
    if |head| < |url| && head != "" && IsLetter(head[0]) && forall i :: 0 <= i < |head| ==> SchemeChar(head[i])
    then head else ""
  }

  function AfterScheme(url: string): string {
    var scheme := SchemePart(url);
    if scheme != "" && |scheme| < |url| then url[|scheme| + 1..] else url
  }

  /** User, host and port, which only follow `//`. */
  function Authority(url: string): string {
    var rest := AfterScheme(url);
    if "//" <= rest then Before(rest[2..], STOPS) else ""
  }

  function AfterAuthority(url: string): string {
    var rest := AfterScheme(url);
    if "//" <= rest then rest[2 + |Authority(url)|..] else rest
  }

  function AfterAt(s: string): string {
    if '@' in s then AfterAt(s[1..]) else s
  }

  /** The host of a URL in lower case, if it names one. */
  function UrlHost(url: string): Option<string> {
    var host := Lower(Before(AfterAt(Authority(url)), {':'}));
    if host == "" then None else Some(host)
  }

  function UrlPort(url: string): string {
    var hostAndPort := AfterAt(Authority(url));
    var host := Before(hostAndPort, {':'});
    if |host| < |hostAndPort| then hostAndPort[|host| + 1..] else ""
  }

  function Number(digits: string): int {
    if digits == "" then 0 else 10 * Number(digits[..|digits| - 1]) + (digits[|digits| - 1] as int - '0' as int)
  }

  /** Reading the port raises for anything but digits up to 65535. */
  predicate PortOk(port: string) {
    (forall i :: 0 <= i < |port| ==> IsDigit(port[i])) && 0 <= Number(port) <= 65535
  }

  // ---- normalisation ----

  const HTTP := "http://"
  const HTTPS := "https://"

  predicate Contains(s: string, part: string) {
    part <= s || (s != "" && Contains(s[1..], part))
  }

  predicate IsHttp(text: string) {
    HTTP <= Lower(text) || HTTPS <= Lower(text)
  }

  /** Text of another scheme is kept as it came. */
  predicate IsForeign(text: string) {
    if Contains(text, "://") then !IsHttp(text) else "mailto:" <= Lower(text) || "tel:" <= Lower(text)
  }

  /** What is read as a URL: web addresses as they are, all else as if the scheme had been left out. */
  function CandidateUrl(text: string): string {
    if Contains(text, "://") then text else HTTPS + text
  }

  /** The text names a host that can be rebuilt. */
  predicate Rebuilds(text: string) {
    var url := CandidateUrl(text);
    !IsForeign(text) && UrlHost(url).Some? && WellFormed(UrlHost(url).value) && PortOk(UrlPort(url))
  }

  /** The port as it is written again: dropped if it is absent or the usual one. */
  function PortAgain(scheme: string, port: string): string
    requires PortOk(port)
  {
    if port == "" || Number(port) == (if scheme == "http" then 80 else 443) then ""
    else ":" + Decimal(Number(port))
  }

  /**
   * A web address is rebuilt without one `www.`, any other text is kept. `tail` rewrites what follows the
   * authority: path, query and fragment.
   */
  function NormalizeUrl(text: string, tail: string -> string): string {
    var url := CandidateUrl(text);
    var scheme := Lower(SchemePart(url));
    if !Rebuilds(text) then text
    else
      scheme + "://" + WithoutWww(UrlHost(url).value) + PortAgain(scheme, UrlPort(url)) + tail(AfterAuthority(url))
  }

  function ExtractDomain(url: string): Option<string> {
    var host := UrlHost(url);
    if host.None? then None else Some(WithoutWww(host.value))
  }

  function DomainOfText(text: string, tail: string -> string): Option<string> {
    ExtractDomain(NormalizeUrl(text, tail))
  }

  /** What follows the authority begins with a separator after it is rewritten too. */
  ghost predicate TailStops(tail: string -> string) {
    forall s :: tail(s) == "" || tail(s)[0] in STOPS
  }

  // ---- splitting what was put together ----

  lemma {:induction false} BeforeStops(head: string, rest: string, stops: set<char>)
    requires forall c :: c in head ==> c !in stops
    requires rest == "" || rest[0] in stops
    ensures Before(head + rest, stops) == head
  {
    if head == "" {
      assert head + rest == rest;
    } else {
      assert (head + rest)[1..] == head[1..] + rest;
      BeforeStops(head[1..], rest, stops);
    }
  }

  lemma {:induction false} BeforeIsPrefix(s: string, stops: set<char>)
    ensures Before(s, stops) <= s && forall c :: c in Before(s, stops) ==> c !in stops
  {
    if s != "" && s[0] !in stops {
      BeforeIsPrefix(s[1..], stops);
      assert s == [s[0]] + s[1..];
    }
  }

  lemma {:induction false} AfterAtIsSuffix(s: string)
    ensures '@' !in AfterAt(s) && |AfterAt(s)| <= |s| && AfterAt(s) == s[|s| - |AfterAt(s)|..]
  {
    if '@' in s {
      AfterAtIsSuffix(s[1..]);
    }
  }

  /** Characters that no host, port or separator contains. */
  ghost predicate Unseparated(s: string) {
    forall c :: c in s ==> c !in STOPS && c != ':' && c != '@'
  }

  /** The parts of an address without a user are read back as they were written. */
  lemma SplitsBack(scheme: string, host: string, port: string, rest: string)
    requires Lower(scheme) == "http" || Lower(scheme) == "https"
    requires Unseparated(host) && (port == "" || (port[0] == ':' && Unseparated(port[1..])))
    requires rest == "" || rest[0] in STOPS
    ensures var url := scheme + "://" + host + port + rest;
      SchemePart(url) == scheme && Authority(url) == host + port && AfterAuthority(url) == rest &&
      UrlHost(url) == (if host == "" then None else Some(Lower(host))) &&
      UrlPort(url) == if port == "" then "" else port[1..]
  {
    hide SchemePart, Before, STOPS, AfterAt, AfterScheme;
    var url := scheme + "://" + host + port + rest;
    SchemeReadsBack(scheme, "//" + host + port + rest);
    assert url == scheme + (":" + ("//" + host + port + rest));
    assert ("//" + host + port + rest)[2..] == (host + port) + rest;
    assert forall c :: c in host + port ==> c !in STOPS && c != '@' by { JoinedUnseparated(host, port); }
    BeforeStops(host + port, rest, STOPS);
    assert ("//" + host + port + rest)[2 + |host + port|..] == rest;
    NothingBeforeAt(host + port);
    HostBeforePort(host, port);
    assert port != "" ==> (host + port)[|host| + 1..] == port[1..];
  }

  lemma JoinedUnseparated(host: string, port: string)
    requires Unseparated(host) && (port == "" || (port[0] == ':' && Unseparated(port[1..])))
    ensures forall c :: c in host + port ==> c !in STOPS && c != '@'
  {
    assert port != "" ==> port == [port[0]] + port[1..];
  }

  lemma NothingBeforeAt(s: string)
    requires forall c :: c in s ==> c != '@'
    ensures AfterAt(s) == s
  {
  }

  lemma HostBeforePort(host: string, port: string)
    requires Unseparated(host) && (port == "" || port[0] == ':')
    ensures Before(host + port, {':'}) == host
  {
    BeforeStops(host, port, {':'});
  }

  /** Letters before a colon are read as a scheme. */
  lemma LettersReadBack(scheme: string, rest: string)
    requires scheme != "" && forall i :: 0 <= i < |scheme| ==> IsLetter(scheme[i])
    ensures SchemePart(scheme + (":" + rest)) == scheme && AfterScheme(scheme + (":" + rest)) == rest
  {
    BeforeStops(scheme, ":" + rest, {':'});
    hide Before;
    var url := scheme + (":" + rest);
    assert |scheme| < |url| && url[|scheme| + 1..] == rest;
  }

  lemma SchemeReadsBack(scheme: string, rest: string)
    requires Lower(scheme) == "http" || Lower(scheme) == "https"
    ensures SchemePart(scheme + (":" + rest)) == scheme && AfterScheme(scheme + (":" + rest)) == rest
  {
    forall i | 0 <= i < |scheme| ensures IsLetter(scheme[i]) {
      assert LowerChar(scheme[i]) == Lower(scheme)[i];
    }
    assert |Lower(scheme)| == |scheme| > 0;
    LettersReadBack(scheme, rest);
  }

  lemma NoAuthorityNoHost(url: string)
    requires !("//" <= AfterScheme(url))
    ensures UrlHost(url) == None
  {
    hide AfterScheme;
    BeforeNothing("", {':'});
    assert Authority(url) == "" && AfterAt("") == "" && Lower("") == "";
  }

  /** A leading `www.` is one label more. */
  lemma LabelsAfterWww(rest: string)
    ensures Labels(WWW + rest) == ["www"] + Labels(rest)
  {
    var a, b, c := "ww." + rest, "w." + rest, "." + rest;
    assert (WWW + rest)[1..] == a && a[1..] == b && b[1..] == c && c[1..] == rest;
    assert Labels(c) == [""] + Labels(rest);
    assert Labels(b) == ["w"] + Labels(rest) by { assert ['w'] + "" == "w"; }
    assert Labels(a) == ["ww"] + Labels(rest) by { assert ['w'] + "w" == "ww"; }
    assert ['w'] + "ww" == "www";
  }

  /** Dropping the prefix of a well-formed host leaves something, and keeps it well formed if another follows. */
  lemma WithoutWwwKeeps(host: string)
    requires WellFormed(host)
    ensures WithoutWww(host) != "" && forall w :: w in Labels(WithoutWww(host)) ==> IsLabel(w)
    ensures WWW <= WithoutWww(host) ==> WellFormed(WithoutWww(host))
  {
    if WWW <= host {
      var rest := host[|WWW|..];
      assert host == WWW + rest;
      LabelsAfterWww(rest);
      forall w | w in Labels(rest) ensures IsLabel(w) {
        assert w in Labels(host);
      }
      assert Labels(rest)[0] in Labels(rest);
      if WWW <= rest {
        assert rest == WWW + rest[|WWW|..];
        LabelsAfterWww(rest[|WWW|..]);
      }
    }
  }

  lemma WithoutWwwIsPart(host: string)
    ensures forall c :: c in WithoutWww(host) ==> c in host
  {
  }

  // ---- the domain of a text ----

  /** What is kept of a host that a web address names: two prefixes fewer if it is well formed, else one. */
  function DomainOfHost(host: string): string {
    if WellFormed(host) then WithoutWww(WithoutWww(host)) else WithoutWww(host)
  }

  lemma LowerIsLower(s: string)
    ensures Lower(Lower(s)) == Lower(s)
    ensures Unseparated(s) ==> Unseparated(Lower(s))
  {
    forall c | c in Lower(s) ensures exists d :: d in s && c == LowerChar(d) {
      var i :| 0 <= i < |s| && Lower(s)[i] == c;
      assert s[i] in s && c == LowerChar(s[i]);
    }
  }

  lemma WithoutWwwStaysLower(host: string)
    requires Lower(host) == host
    ensures Lower(WithoutWww(host)) == WithoutWww(host)
  {
    if WWW <= host {
      var rest := host[|WWW|..];
      forall i | 0 <= i < |rest| ensures Lower(rest)[i] == rest[i] {
        assert rest[i] == host[i + |WWW|] == Lower(host)[i + |WWW|];
      }
    }
  }

  lemma {:induction false} BeforeMembers(s: string, stops: set<char>)
    ensures forall c :: c in Before(s, stops) ==> c in s && c !in stops
  {
    if s != "" && s[0] !in stops {
      BeforeMembers(s[1..], stops);
    }
  }

  lemma {:induction false} AfterAtMembers(s: string)
    ensures forall c :: c in AfterAt(s) ==> c in s && c != '@'
  {
    if '@' in s {
      AfterAtMembers(s[1..]);
    }
  }

  lemma AuthorityMembers(url: string)
    ensures forall c :: c in Authority(url) ==> c !in STOPS
  {
    hide AfterScheme, STOPS, Before;
    var rest := AfterScheme(url);
    if "//" <= rest {
      BeforeMembers(rest[2..], STOPS);
    }
  }

  /** A host is lower-case text without separators. */
  lemma HostIsUnseparated(url: string)
    requires UrlHost(url).Some?
    ensures var host := UrlHost(url).value; Lower(host) == host && Unseparated(host)
  {
    hide Before, AfterAt, Authority, STOPS;
    var hostAndPort := AfterAt(Authority(url));
    AuthorityMembers(url);
    AfterAtMembers(Authority(url));
    BeforeMembers(hostAndPort, {':'});
    LowerIsLower(Before(hostAndPort, {':'}));
  }

  lemma WebScheme(text: string)
    requires IsHttp(text)
    ensures Lower(SchemePart(text)) == "http" || Lower(SchemePart(text)) == "https"
  {
    var n := if HTTP <= Lower(text) then 4 else 5;
    var scheme := text[..n];
    assert Lower(scheme) == if n == 4 then "http" else "https" by {
      assert forall i :: 0 <= i < n ==> Lower(scheme)[i] == Lower(text)[i];
    }
    assert Lower(text)[n] == ':' && text[n] == ':';
    assert text == scheme + (":" + text[n + 1..]);
    SchemeReadsBack(scheme, text[n + 1..]);
  }

  lemma CandidateScheme(text: string)
    requires !IsForeign(text)
    ensures Lower(SchemePart(CandidateUrl(text))) == "http" || Lower(SchemePart(CandidateUrl(text))) == "https"
  {
    if Contains(text, "://") {
      WebScheme(text);
    } else {
      assert HTTPS + text == "https" + (":" + ("//" + text));
      SchemeReadsBack("https", "//" + text);
    }
  }

  lemma PortIsUnseparated(scheme: string, port: string)
    requires PortOk(port)
    ensures var again := PortAgain(scheme, port); again == "" || (again[0] == ':' && Unseparated(again[1..]))
  {
    hide Decimal;
    var digits := Decimal(Number(port));
    forall c | c in digits ensures IsDigit(c) {
      var i :| 0 <= i < |digits| && digits[i] == c;
    }
  }

  /** A rebuilt address gives the domain of its host, whatever port and path follow. */
  lemma RebuiltDomain(text: string, tail: string -> string)
    requires TailStops(tail) && Rebuilds(text)
    ensures DomainOfText(text, tail) == Some(WithoutWww(WithoutWww(UrlHost(CandidateUrl(text)).value)))
  {
    hide WellFormed, WithoutWww, UrlHost, UrlPort, SchemePart, PortOk, PortAgain, IsForeign, CandidateUrl,
      AfterAuthority;
    var url := CandidateUrl(text);
    var host, port, scheme := UrlHost(url).value, UrlPort(url), Lower(SchemePart(url));
    CandidateScheme(text);
    HostIsUnseparated(url);
    WithoutWwwStaysLower(host);
    WithoutWwwKeeps(host);
    WithoutWwwIsPart(host);
    PortIsUnseparated(scheme, port);
    LowerIsLower(SchemePart(url));
    SplitsBack(scheme, WithoutWww(host), PortAgain(scheme, port), tail(AfterAuthority(url)));
  }

  /** The domain of any text: that of the rebuilt host, or else that of the host it names as it stands. */
  lemma DomainOfAnyText(text: string, tail: string -> string)
    requires TailStops(tail)
    ensures DomainOfText(text, tail) ==
      if Rebuilds(text) then Some(WithoutWww(WithoutWww(UrlHost(CandidateUrl(text)).value)))
      else if UrlHost(text).Some? then Some(WithoutWww(UrlHost(text).value))
      else None
  {
    hide WithoutWww, UrlHost, Rebuilds, CandidateUrl;
    if Rebuilds(text) {
      RebuiltDomain(text, tail);
    }
  }

  lemma EmptyIsIllFormed()
    ensures !WellFormed("")
  {
  }

  lemma {:induction false} OneLabel(host: string)
    requires '.' !in host
    ensures |Labels(host)| == 1 && !WellFormed(host)
  {
    if host != "" {
      OneLabel(host[1..]);
    }
  }

  /**
   * However a well-formed host is spelled, with or without scheme and port, in any case and with whatever path
   * after it, its domain is the same, as long as text without a scheme does not contain `://` further on.
   */
  lemma SpelledAnyWay(scheme: string, host: string, port: string, rest: string, tail: string -> string)
    requires TailStops(tail) && WellFormed(Lower(host)) && (rest == "" || rest[0] in STOPS)
    requires port == "" || (port[0] == ':' && PortOk(port[1..]))
    requires if scheme == "" then !Contains(host + port + rest, "://")
      else Lower(scheme) == "http" || Lower(scheme) == "https"
    ensures var text := (if scheme == "" then "" else scheme + "://") + host + port + rest;
      DomainOfText(text, tail) == Some(DomainOfHost(Lower(host)))
  {
    hide WithoutWww, WellFormed, UrlHost, UrlPort, Contains, IsForeign, Before, SchemePart, AfterAuthority, Authority,
      DomainOfText, CandidateUrl, PortOk, Unseparated, STOPS;
    NoPortIsOk();
    var text := (if scheme == "" then "" else scheme + "://") + host + port + rest;
    var written := if scheme == "" then "https" else scheme;
    HostSpelledPlain(host);
    if port != "" {
      DigitsUnseparated(port);
    }
    CandidateAsWritten(scheme, host, port, rest);
    SplitsBack(written, host, port, rest);
    LowerIsLower(host);
    RebuiltDomain(text, tail);
  }

  /**
   * Its normal form spells it out: lower-case scheme, host without one `www.`, and the port unless it is that of
   * the scheme.
   */
  lemma RespelledAs(scheme: string, host: string, port: string, rest: string, tail: string -> string)
    requires WellFormed(Lower(host)) && (rest == "" || rest[0] in STOPS)
    requires port == "" || (port[0] == ':' && PortOk(port[1..]))
    requires if scheme == "" then !Contains(host + port + rest, "://")
      else Lower(scheme) == "http" || Lower(scheme) == "https"
    ensures var text := (if scheme == "" then "" else scheme + "://") + host + port + rest;
      var written := if scheme == "" then "https" else Lower(scheme);
      var usual := if written == "http" then 80 else 443;
      NormalizeUrl(text, tail) ==
        written + "://" + (if "www." <= Lower(host) then Lower(host)[4..] else Lower(host)) +
        (if |port| <= 1 || Number(port[1..]) == usual then "" else ":" + Decimal(Number(port[1..]))) + tail(rest)
  {
    hide WellFormed, UrlHost, UrlPort, Contains, IsForeign, Before, SchemePart, AfterAuthority, Authority, CandidateUrl,
      PortOk, Unseparated, STOPS, Decimal, Number;
    NoPortIsOk();
    var text := (if scheme == "" then "" else scheme + "://") + host + port + rest;
    var written := if scheme == "" then "https" else scheme;
    HostSpelledPlain(host);
    if port != "" {
      DigitsUnseparated(port);
    }
    CandidateAsWritten(scheme, host, port, rest);
    SplitsBack(written, host, port, rest);
    assert Lower("https") == "https";
  }

  /** Text of another scheme is kept as it came, and an address to mail or call leaves no domain. */
  lemma ForeignIsKept(text: string, tail: string -> string)
    ensures Contains(text, "://") && !(HTTP <= Lower(text)) && !(HTTPS <= Lower(text)) ==>
      NormalizeUrl(text, tail) == text
    ensures !Contains(text, "://") && ("mailto:" <= Lower(text) || "tel:" <= Lower(text)) ==>
      NormalizeUrl(text, tail) == text && DomainOfText(text, tail) == None
  {
    hide Contains, WellFormed, UrlHost, UrlPort, CandidateUrl, WithoutWww, AfterAuthority, SchemePart, PortOk;
    MailHasNoHost(text, "mailto");
    MailHasNoHost(text, "tel");
  }

  lemma MailHasNoHost(text: string, scheme: string)
    requires scheme == "mailto" || scheme == "tel"
    ensures !Contains(text, "://") && scheme + ":" <= Lower(text) ==> UrlHost(text) == None
  {
    hide Contains, UrlHost;
    if !Contains(text, "://") && scheme + ":" <= Lower(text) {
      var n := |scheme|;
      forall i | 0 <= i < n ensures IsLetter(text[i]) {
        assert Lower(text)[i] == scheme[i];
      }
      assert Lower(text)[n] == ':' && text[n] == ':';
      ColonWithoutSlashes(text, n);
    }
  }

  lemma MarkIsContained(text: string, n: nat)
    requires n < |text|
    ensures text[n] == ':' && "//" <= text[n + 1..] ==> Contains(text, "://")
  {
    if text[n] == ':' && "//" <= text[n + 1..] {
      ContainsAfter(text[..n], "://", text[n + 3..]);
      assert text == text[..n] + "://" + text[n + 3..];
    }
  }

  /** Without `://` no host follows the scheme. */
  lemma ColonWithoutSlashes(text: string, n: nat)
    requires !Contains(text, "://") && 0 < n < |text| && text[n] == ':'
    requires forall i :: 0 <= i < n ==> IsLetter(text[i])
    ensures UrlHost(text) == None
  {
    hide Contains, SchemePart, AfterScheme, UrlHost, IsLetter;
    MarkIsContained(text, n);
    var scheme, rest := text[..n], text[n + 1..];
    assert text == scheme + (":" + rest);
    assert forall i :: 0 <= i < |scheme| ==> scheme[i] == text[i];
    LettersReadBack(scheme, rest);
    NoAuthorityNoHost(text);
  }

  /** What is read as the URL, and that it is not foreign. */
  lemma CandidateAsWritten(scheme: string, host: string, port: string, rest: string)
    requires WellFormed(Lower(host))
    requires if scheme == "" then !Contains(host + port + rest, "://")
      else Lower(scheme) == "http" || Lower(scheme) == "https"
    ensures var text := (if scheme == "" then "" else scheme + "://") + host + port + rest;
      !IsForeign(text) &&
      CandidateUrl(text) == (if scheme == "" then "https" else scheme) + "://" + host + port + rest
  {
    hide WellFormed, Contains, IsForeign;
    if scheme == "" {
      assert "" + host + port + rest == host + port + rest == host + (port + rest);
      NotForeign(host, port + rest);
      assert HTTPS + (host + port + rest) == "https" + "://" + host + port + rest;
    } else {
      WebIsNotForeign(scheme, host + port + rest);
      assert scheme + "://" + host + port + rest == scheme + "://" + (host + port + rest);
    }
  }

  lemma NoPortIsOk()
    ensures PortOk("")
  {
  }

  lemma DigitsUnseparated(port: string)
    requires port != "" && PortOk(port[1..])
    ensures Unseparated(port[1..])
  {
    hide Number;
    var digits := port[1..];
    forall c | c in digits ensures IsDigit(c) {
      var i :| 0 <= i < |digits| && digits[i] == c;
    }
  }

  lemma WebIsNotForeign(scheme: string, rest: string)
    requires Lower(scheme) == "http" || Lower(scheme) == "https"
    ensures var text := scheme + "://" + rest; Contains(text, "://") && !IsForeign(text)
  {
    ContainsAfter(scheme, "://", rest);
    LowerPrefix(scheme + "://", rest);
    LowerPrefix(scheme, "://");
    assert Lower(scheme + "://") == Lower(scheme) + "://";
  }

  lemma LowerPrefix(s: string, rest: string)
    ensures Lower(s + rest) == Lower(s) + Lower(rest)
  {
  }

  lemma {:induction false} ContainsAfter(before: string, part: string, after: string)
    ensures Contains(before + part + after, part)
  {
    var s := before + part + after;
    if before == "" {
      assert s == part + after;
    } else {
      assert s[1..] == before[1..] + part + after;
      ContainsAfter(before[1..], part, after);
    }
  }

  predicate HostChar(c: char) {
    AlNum(c) || c == '-' || c == '.'
  }

  lemma {:induction false} LabelsCoverHost(host: string)
    requires forall w, i :: w in Labels(host) && 0 <= i < |w| ==> HostChar(w[i])
    ensures forall c :: c in host ==> HostChar(c)
  {
    if host != "" {
      var rest := Labels(host[1..]);
      forall w, i | w in rest && 0 <= i < |w| ensures HostChar(w[i]) {
        if host[0] == '.' {
          assert w in Labels(host);
        } else if w in rest[1..] {
          assert w in Labels(host);
        } else {
          assert w == rest[0];
          var longer := [host[0]] + rest[0];
          assert longer == Labels(host)[0] && longer in Labels(host) && longer[i + 1] == w[i];
        }
      }
      LabelsCoverHost(host[1..]);
      if host[0] != '.' {
        assert Labels(host)[0] in Labels(host) && Labels(host)[0][0] == host[0];
      }
    }
  }


  /** A host spelled in any case has no separators, and its dot keeps it from being read as another scheme. */
  lemma HostSpelledPlain(host: string)
    requires WellFormed(Lower(host))
    ensures Unseparated(host) && host != ""
  {
    hide Labels;
    WellFormedChars(Lower(host));
    forall c | c in host ensures c !in STOPS && c != ':' && c != '@' {
      var i :| 0 <= i < |host| && host[i] == c;
      assert LowerChar(c) == Lower(host)[i] && Lower(host)[i] in Lower(host);
    }
    EmptyIsIllFormed();
  }

  lemma WellFormedChars(host: string)
    requires WellFormed(host)
    ensures '.' in host && forall c :: c in host ==> HostChar(c)
  {
    hide Labels;
    assert forall w, i :: w in Labels(host) && 0 <= i < |w| ==> HostChar(w[i]);
    LabelsCoverHost(host);
    if '.' !in host {
      OneLabel(host);
    }
  }

  lemma NotForeign(host: string, rest: string)
    requires WellFormed(Lower(host)) && !Contains(host + rest, "://")
    ensures !IsForeign(host + rest)
  {
    hide WellFormed;
    var text, low := host + rest, Lower(host + rest);
    WellFormedChars(Lower(host));
    var i :| 0 <= i < |host| && Lower(host)[i] == '.';
    assert low[i] == '.';
    forall k | 0 <= k < |host| ensures low[k] != ':' {
      assert low[k] == Lower(host)[k] && Lower(host)[k] in Lower(host);
    }
    DotBeforeColon("mailto:", low, i);
    DotBeforeColon("tel:", low, i);
  }

  lemma DotBeforeColon(scheme: string, s: string, dot: nat)
    requires scheme != "" && scheme[|scheme| - 1] == ':' && '.' !in scheme
    requires dot < |s| && s[dot] == '.' && forall k :: 0 <= k < dot ==> s[k] != ':'
    ensures !(scheme <= s)
  {
    assert forall k :: 0 <= k < |scheme| ==> scheme[k] in scheme;
  }

  // ---- the domains that get stored ----

  /** Lower-case text without repeated spaces or separators. */
  ghost predicate DomainLike(domain: string) {
    Lower(domain) == domain && Collapsed(domain) && Unseparated(domain)
  }

  lemma LowerKeepsCollapsed(s: string)
    requires Collapsed(s)
    ensures Collapsed(Lower(s))
  {
    assert forall c :: IsSpace(LowerChar(c)) <==> IsSpace(c);
  }

  lemma SchemeKeepsCollapsed(text: string)
    requires Collapsed(text)
    ensures Collapsed(CandidateUrl(text))
  {
    var url := HTTPS + text;
    assert forall i :: 0 <= i < |url| ==> url[i] == if i < |HTTPS| then HTTPS[i] else text[i - |HTTPS|];
    assert forall i :: 0 <= i < |HTTPS| ==> !IsSpace(HTTPS[i]);
  }

  lemma PrefixIsPart(t: string, s: string)
    requires t <= s
    ensures Part(t, s)
  {
    assert t == s[0..|t|];
  }

  lemma SuffixIsPart(s: string, from: nat)
    requires from <= |s|
    ensures Part(s[from..], s)
  {
    assert s[from..] == s[from..|s|];
  }

  lemma AuthorityIsPart(url: string)
    ensures Part(Authority(url), url)
  {
    hide SchemePart, STOPS, Part;
    var rest := AfterScheme(url);
    PrefixIsPart("", url);
    assert Part(rest, url) by {
      SuffixIsPart(url, 0);
      assert url[0..] == url;
      if rest != url {
        SuffixIsPart(url, |SchemePart(url)| + 1);
      }
    }
    if "//" <= rest {
      SuffixIsPart(rest, 2);
      BeforeIsPrefix(rest[2..], STOPS);
      PrefixIsPart(Authority(url), rest[2..]);
      PartOfPart(Authority(url), rest[2..], rest);
      PartOfPart(Authority(url), rest, url);
    }
  }

  lemma HostIsCollapsed(url: string)
    requires Collapsed(url) && UrlHost(url).Some?
    ensures Collapsed(UrlHost(url).value)
  {
    hide Authority, AfterAt, Before, Collapsed, Part;
    var authority := Authority(url);
    var hostAndPort := AfterAt(authority);
    var host := Before(hostAndPort, {':'});
    AuthorityIsPart(url);
    AfterAtIsSuffix(authority);
    SuffixIsPart(authority, |authority| - |hostAndPort|);
    BeforeIsPrefix(hostAndPort, {':'});
    PrefixIsPart(host, hostAndPort);
    PartOfPart(host, hostAndPort, authority);
    PartOfPart(host, authority, url);
    CollapsedPart(host, url);
    LowerKeepsCollapsed(host);
  }

  lemma PartStaysDomainLike(t: string, s: string)
    requires Part(t, s) && DomainLike(s)
    ensures DomainLike(t)
  {
    hide Collapsed, STOPS;
    CollapsedPart(t, s);
    var i, j :| 0 <= i <= j <= |s| && t == s[i..j];
    forall k | 0 <= k < |t| ensures Lower(t)[k] == t[k] {
      assert t[k] == s[i + k] && Lower(s)[i + k] == s[i + k];
    }
    forall c | c in t ensures c in s {
      var k :| 0 <= k < |t| && t[k] == c;
      assert c == s[i + k];
    }
  }

  lemma WithoutWwwStaysDomainLike(host: string)
    requires DomainLike(host)
    ensures DomainLike(WithoutWww(host))
  {
    hide DomainLike, Part;
    SuffixIsPart(host, if WWW <= host then |WWW| else 0);
    assert host[0..] == host;
    PartStaysDomainLike(WithoutWww(host), host);
  }

  /** What is stored as the domain of a website, in whatever case it is written, is clean. */
  lemma StoredDomainIsDomainLike(text: string, tail: string -> string)
    requires TailStops(tail) && Collapsed(text) && DomainOfText(text, tail).Some?
    ensures DomainLike(DomainOfText(text, tail).value)
  {
    hide Collapsed, WithoutWww, DomainOfText, UrlHost, WellFormed, Unseparated, IsForeign, CandidateUrl;
    DomainOfAnyText(text, tail);
    var url := if Rebuilds(text) then CandidateUrl(text) else text;
    SchemeKeepsCollapsed(text);
    HostIsUnseparated(url);
    HostIsCollapsed(url);
    WithoutWwwStaysDomainLike(UrlHost(url).value);
    WithoutWwwStaysDomainLike(WithoutWww(UrlHost(url).value));
  }

  lemma {:induction false} NoColonNoMark(text: string)
    requires ':' !in text
    ensures !Contains(text, "://")
  {
    if text != "" {
      assert text[0] in text;
      NoColonNoMark(text[1..]);
    }
  }

  lemma {:induction false} BeforeNothing(s: string, stops: set<char>)
    requires forall c :: c in s ==> c !in stops
    ensures Before(s, stops) == s
  {
    BeforeStops(s, "", stops);
    assert s + "" == s;
  }

  lemma UnseparatedIsNoUrl(domain: string)
    requires Unseparated(domain)
    ensures UrlHost(domain) == None && !IsForeign(domain) && CandidateUrl(domain) == HTTPS + domain
  {
    hide Before, Contains;
    NoColonNoMark(domain);
    BeforeNothing(domain, {':'});
    assert forall i :: 0 <= i < |domain| ==> domain[i] in domain;
    assert SchemePart(domain) == "" && AfterScheme(domain) == domain;
    assert domain != "" ==> domain[0] !in STOPS && domain[0] != '/';
    assert Authority(domain) == "";
    assert forall i :: 0 <= i < |domain| ==> Lower(domain)[i] != ':' by {
      assert forall i :: 0 <= i < |domain| ==> Lower(domain)[i] == LowerChar(domain[i]) && domain[i] != ':';
    }
    assert "mailto:"[6] == ':' && "tel:"[3] == ':';
    assert AfterAt("") == "" && Before("", {':'}) == "" by { BeforeNothing("", {':'}); }
    assert Lower("") == "";
  }

  /** Read as a website itself, a domain names a host only if it is well formed, and is then that host. */
  lemma DomainOfDomain(domain: string, tail: string -> string)
    requires TailStops(tail) && Lower(domain) == domain && Unseparated(domain)
    ensures DomainOfText(domain, tail) ==
      if WellFormed(domain) then Some(WithoutWww(WithoutWww(domain))) else None
    ensures WellFormed(domain) ==> WithoutWww(WithoutWww(domain)) != ""
  {
    hide WellFormed, WithoutWww, UrlHost, UrlPort, IsForeign, CandidateUrl, DomainOfText, PortOk, SchemePart, Authority,
      AfterAuthority, Unseparated, STOPS;
    NoPortIsOk();
    EmptyIsIllFormed();
    UnseparatedIsNoUrl(domain);
    SplitsBack("https", domain, "", "");
    assert HTTPS + domain == "https" + "://" + domain + "" + "";
    DomainOfAnyText(domain, tail);
    if WellFormed(domain) {
      WithoutWwwKeeps(domain);
      if WWW <= WithoutWww(domain) {
        WithoutWwwKeeps(WithoutWww(domain));
      } else {
        WithoutWwwStops(WithoutWww(domain));
      }
    }
  }

  lemma WithoutWwwStops(host: string)
    ensures if WWW <= host then |WithoutWww(host)| < |host| else WithoutWww(host) == host
  {
  }

  lemma PrefixOfRest(p: string, q: string, s: string)
    requires p <= s
    ensures q <= s[|p|..] <==> p + q <= s
  {
    assert s == p + s[|p|..];
    if q <= s[|p|..] {
      assert s == (p + q) + s[|p|..][|q|..];
    }
    if p + q <= s {
      assert s[|p|..][..|q|] == q;
    }
  }

  /** After two prefixes are dropped a third is left exactly when there were three. */
  lemma ThreeLeaveOne(host: string)
    ensures WWW <= WithoutWww(WithoutWww(host)) <==> "www.www.www." <= host
  {
    assert WWW + WWW == "www.www." && WWW + "www.www." == "www.www.www.";
    var once := WithoutWww(host);
    if WWW <= once { PrefixOfRest(WWW, WWW, once); }
    if WWW <= host { PrefixOfRest(WWW, "www.www.", host); }
  }

  lemma HostCharsAreClean(host: string)
    requires forall c :: c in host ==> HostChar(c)
    ensures DomainLike(host) && Bare(host)
  {
    assert forall c :: HostChar(c) ==> c !in STOPS && c != ':' && c != '@' && !IsSpace(c) && LowerChar(c) == c;
  }

  /** A well-formed host is clean, and so is what stays of it, which is never empty. */
  lemma WellFormedLeavesCleanDomain(host: string)
    requires WellFormed(host)
    ensures var domain := DomainOfHost(host);
      DomainLike(host) && DomainLike(domain) && Bare(domain) && domain != "" && (WWW <= domain ==> WellFormed(domain))
  {
    hide WithoutWww, Labels, DomainLike, Bare;
    WellFormedChars(host);
    HostCharsAreClean(host);
    var once := WithoutWww(host);
    WithoutWwwIsPart(host);
    WithoutWwwIsPart(once);
    HostCharsAreClean(WithoutWww(once));
    WithoutWwwKeeps(host);
    WithoutWwwStops(once);
    if WWW <= once {
      WithoutWwwKeeps(once);
    }
  }
}
