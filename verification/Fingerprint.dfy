/** The comparable keys of a lead (app/deduplication/fingerprint.py). */
module Fingerprint {
  import opened Text
  import opened Domain

  const LEGAL_SUFFIXES: set<string> := {
    "oy", "oyj", "ab", "ky", "tmi", "as", "asa", "aps", "ou", "sia", "uab", "ltd", "limited", "plc",
    "llp", "inc", "llc", "corp", "corporation", "company", "co", "gmbh", "ag", "kg", "bv", "nv",
    "sa", "sas", "sarl", "srl", "spa", "sl"
  }

  predicate AlNum(c: char) {
    'a' <= c <= 'z' || '0' <= c <= '9'
  }

  /** A non-empty run of lower-case letters and digits. */
  predicate IsWord(w: string) {
    w != "" && forall i :: 0 <= i < |w| ==> AlNum(w[i])
  }

  predicate AllWords(ws: seq<string>) {
    forall i :: 0 <= i < |ws| ==> IsWord(ws[i])
  }

  function Flush(run: string): seq<string> {
    if run == "" then [] else [run]
  }

  /** Splits folded text at everything that is not a letter or digit; `run` is the word being read. */
  function Split(s: string, run: string): seq<string> {
    if s == "" then Flush(run)
    else if AlNum(s[0]) then Split(s[1..], run + [s[0]])
    else Flush(run) + Split(s[1..], "")
  }

  function Words(s: string): seq<string> {
    Split(Lower(s), "")
  }

  function StripSuffixes(ws: seq<string>): seq<string> {
    if ws != [] && ws[|ws| - 1] in LEGAL_SUFFIXES then StripSuffixes(ws[..|ws| - 1]) else ws
  }

  function Join(ws: seq<string>): string {
    if ws == [] then ""
    else if |ws| == 1 then ws[0]
    else ws[0] + " " + Join(ws[1..])
  }

  function SlugOf(ws: seq<string>): Option<string> {
    var slug := Join(StripSuffixes(ws));
    if slug == "" then None else Some(slug)
  }

  function CompanySlug(name: Option<string>): Option<string> {
    if name.None? then None else SlugOf(Words(name.value))
  }

  method ComputeCompanySlug(value: Option<string>) returns (slug: Option<string>)
    ensures slug == CompanySlug(value)
  {
    if value.None? {
      return None;
    }
    var tokens := Words(value.value);
    while tokens != [] && tokens[|tokens| - 1] in LEGAL_SUFFIXES
      invariant StripSuffixes(tokens) == StripSuffixes(Words(value.value))
      decreases |tokens|
    {
      tokens := tokens[..|tokens| - 1];
    }
    var joined := Join(tokens);
    slug := if joined == "" then None else Some(joined);
  }

  lemma {:induction false} SplitGivesWords(s: string, run: string)
    requires run == "" || IsWord(run)
    ensures AllWords(Split(s, run))
  {
    if s != "" {
      if AlNum(s[0]) {
        SplitGivesWords(s[1..], run + [s[0]]);
      } else {
        SplitGivesWords(s[1..], "");
      }
    }
  }

  /** A separator ends a word, so text on its two sides splits independently. */
  lemma {:induction false} SplitAtSeparator(a: string, sep: char, b: string, run: string)
    requires !AlNum(sep)
    ensures Split(a + [sep] + b, run) == Split(a, run) + Split(b, "")
  {
    var s := a + [sep] + b;
    if a == "" {
      assert s == [sep] + b && s[1..] == b;
    } else {
      assert s[0] == a[0] && s[1..] == a[1..] + [sep] + b;
      if AlNum(a[0]) {
        SplitAtSeparator(a[1..], sep, b, run + [a[0]]);
      } else {
        SplitAtSeparator(a[1..], sep, b, "");
        assert Flush(run) + (Split(a[1..], "") + Split(b, "")) == Flush(run) + Split(a[1..], "") + Split(b, "");
      }
    }
  }

  lemma {:induction false} SplitWord(w: string, run: string)
    requires forall i :: 0 <= i < |w| ==> AlNum(w[i])
    ensures Split(w, run) == Flush(run + w)
  {
    if w == "" {
      assert run + w == run;
    } else {
      assert run + [w[0]] + w[1..] == run + w;
      SplitWord(w[1..], run + [w[0]]);
    }
  }

  lemma {:induction false} JoinIsFolded(ws: seq<string>)
    requires AllWords(ws)
    ensures Lower(Join(ws)) == Join(ws)
  {
    if |ws| > 1 {
      JoinIsFolded(ws[1..]);
      var s := Join(ws);
      forall i | 0 <= i < |s| ensures LowerChar(s[i]) == s[i] {
        if i < |ws[0]| {
          assert s[i] == ws[0][i];
        } else if i > |ws[0]| {
          assert s[i] == Join(ws[1..])[i - |ws[0]| - 1];
          assert Lower(Join(ws[1..]))[i - |ws[0]| - 1] == s[i];
        }
      }
    }
  }

  /** Joining words with single spaces loses nothing: splitting gives the same words back. */
  lemma {:induction false} WordsOfJoin(ws: seq<string>)
    requires AllWords(ws)
    ensures Words(Join(ws)) == ws
    ensures ws != [] ==> Join(ws) != ""
  {
    JoinIsFolded(ws);
    if |ws| == 1 {
      SplitWord(ws[0], "");
      assert "" + ws[0] == ws[0];
    } else if |ws| > 1 {
      WordsOfJoin(ws[1..]);
      JoinIsFolded(ws[1..]);
      SplitAtSeparator(ws[0], ' ', Join(ws[1..]), "");
      SplitWord(ws[0], "");
      assert "" + ws[0] == ws[0];
      assert Join(ws) == ws[0] + [' '] + Join(ws[1..]);
    }
  }

  predicate AllSuffixes(ws: seq<string>) {
    forall i :: 0 <= i < |ws| ==> ws[i] in LEGAL_SUFFIXES
  }

  lemma {:induction false} StripDropsTrailing(core: seq<string>, tail: seq<string>)
    requires AllSuffixes(tail)
    ensures StripSuffixes(core + tail) == StripSuffixes(core)
  {
    if tail == [] {
      assert core + tail == core;
    } else {
      var t := tail[..|tail| - 1];
      assert (core + tail)[..|core + tail| - 1] == core + t;
      StripDropsTrailing(core, t);
    }
  }

  lemma {:induction false} StripSplits(ws: seq<string>) returns (tail: seq<string>)
    ensures ws == StripSuffixes(ws) + tail && AllSuffixes(tail)
    ensures StripSuffixes(StripSuffixes(ws)) == StripSuffixes(ws)
  {
    if ws != [] && ws[|ws| - 1] in LEGAL_SUFFIXES {
      var t := StripSplits(ws[..|ws| - 1]);
      tail := t + [ws[|ws| - 1]];
      assert ws == ws[..|ws| - 1] + [ws[|ws| - 1]];
    } else {
      tail := [];
    }
  }

  /** Equal up to case, punctuation and any number of trailing legal suffixes on either side. */
  ghost predicate SameCompanyName(u: string, v: string) {
    exists core, x, y :: AllSuffixes(x) && AllSuffixes(y) && Words(u) == core + x && Words(v) == core + y
  }

  /** Two names get the same slug exactly when only case, punctuation and legal suffixes differ. */
  lemma SlugIdentifiesCompanyName(u: string, v: string)
    ensures CompanySlug(Some(u)) == CompanySlug(Some(v)) <==> SameCompanyName(u, v)
  {
    SplitGivesWords(Lower(u), "");
    SplitGivesWords(Lower(v), "");
    var x := StripSplits(Words(u));
    var y := StripSplits(Words(v));
    var cu, cv := StripSuffixes(Words(u)), StripSuffixes(Words(v));
    assert AllWords(cu) by { assert forall i :: 0 <= i < |cu| ==> cu[i] == Words(u)[i]; }
    assert AllWords(cv) by { assert forall i :: 0 <= i < |cv| ==> cv[i] == Words(v)[i]; }
    WordsOfJoin(cu);
    WordsOfJoin(cv);
    if CompanySlug(Some(u)) == CompanySlug(Some(v)) {
      assert Join(cu) == Join(cv);
      assert cu == cv;
      assert Words(u) == cu + x && Words(v) == cu + y;
    }
    if SameCompanyName(u, v) {
      var core, p, q :| AllSuffixes(p) && AllSuffixes(q) && Words(u) == core + p && Words(v) == core + q;
      StripDropsTrailing(core, p);
      StripDropsTrailing(core, q);
    }
  }

  /** A slug is its own slug, so recomputing it from stored text changes nothing. */
  lemma SlugIsFixed(name: string)
    requires CompanySlug(Some(name)).Some?
    ensures CompanySlug(CompanySlug(Some(name))) == CompanySlug(Some(name))
  {
    SplitGivesWords(Lower(name), "");
    var tail := StripSplits(Words(name));
    var core := StripSuffixes(Words(name));
    assert AllWords(core) by { assert forall i :: 0 <= i < |core| ==> core[i] == Words(name)[i]; }
    WordsOfJoin(core);
  }

  lemma WordsOfWord(w: string)
    requires w != "" && forall i :: 0 <= i < |w| ==> AlNum(LowerChar(w[i]))
    ensures Words(w) == [Lower(w)]
  {
    hide AlNum, LowerChar;
    SplitWord(Lower(w), "");
    hide Split;
    assert "" + Lower(w) == Lower(w);
  }

  /** One word of letters and digits, in any case, is its own slug in lower case unless it is a legal suffix. */
  lemma SlugOfWord(w: string)
    requires w != "" && Lower(w) !in LEGAL_SUFFIXES
    requires forall i :: 0 <= i < |w| ==> 'a' <= w[i] <= 'z' || 'A' <= w[i] <= 'Z' || '0' <= w[i] <= '9'
    ensures CompanySlug(Some(w)) == Some(Lower(w))
  {
    assert forall i :: 0 <= i < |w| ==> AlNum(LowerChar(w[i]));
    WordsOfWord(w);
    SlugOfOne(Lower(w));
    hide SlugOf;
  }

  lemma SlugOfOne(w: string)
    requires w != "" && w !in LEGAL_SUFFIXES
    ensures SlugOf([w]) == Some(w)
  {
    hide LEGAL_SUFFIXES;
  }

  /** Any other character only separates words. */
  lemma PunctuationSeparates(a: string, c: char, b: string)
    requires !('a' <= c <= 'z' || 'A' <= c <= 'Z' || '0' <= c <= '9')
    ensures Words(a + [c] + b) == Words(a) + Words(b)
  {
    assert Lower(a + [c] + b) == Lower(a) + [c] + Lower(b);
    SplitAtSeparator(Lower(a), c, Lower(b), "");
  }

  /** A slug is written in small letters and digits, with blanks between the words. */
  lemma SlugReads(name: string)
    ensures CompanySlug(Some(name)).Some? ==>
      forall c :: c in CompanySlug(Some(name)).value ==> 'a' <= c <= 'z' || '0' <= c <= '9' || c == ' '
  {
    var core := StripSuffixes(Words(name));
    SplitGivesWords(Lower(name), "");
    var tail := StripSplits(Words(name));
    assert AllWords(core) by { assert forall i :: 0 <= i < |core| ==> core[i] == Words(name)[i]; }
    JoinReads(core);
  }

  lemma {:induction false} JoinReads(ws: seq<string>)
    requires AllWords(ws)
    ensures forall c :: c in Join(ws) ==> AlNum(c) || c == ' '
  {
    if |ws| > 1 {
      JoinReads(ws[1..]);
    }
    if ws != [] {
      forall c | c in ws[0] ensures AlNum(c) {
        var i :| 0 <= i < |ws[0]| && ws[0][i] == c;
      }
    }
  }

  // ---- trigrams ----

  function Padded(w: string): string {
    "  " + w + " "
  }

  /** The trigram of a padded word starting at position i. */
  function Gram(w: string, i: nat): string
    requires i <= |w|
  {
    Padded(w)[i..i + 3]
  }

  function WordTrigrams(w: string): set<string> {
    set i: nat | i <= |w| :: Gram(w, i)
  }

  function TrigramsOf(ws: seq<string>): set<string> {
    set w, i: nat | w in ws && i <= |w| :: Gram(w, i)
  }

  function Trigrams(value: string): set<string> {
    TrigramsOf(Words(value))
  }

  method ComputeTrigrams(value: string) returns (grams: set<string>)
    ensures grams == Trigrams(value)
  {
    var ws := Words(value);
    grams := {};
    for k := 0 to |ws|
      invariant grams == TrigramsOf(ws[..k])
    {
      grams := grams + WordTrigrams(ws[k]);
      forall g ensures g in grams <==> g in TrigramsOf(ws[..k + 1]) {
        assert ws[..k + 1] == ws[..k] + [ws[k]];
      }
    }
    assert ws[..|ws|] == ws;
  }

  /** Jaccard overlap of the two trigram sets. */
  function Similarity(left: string, right: string): real {
    var a, b := Trigrams(left), Trigrams(right);
    if a == {} || b == {} then 0.0 else |a * b| as real / |a + b| as real
  }

  lemma SubsetIsNoLarger<T>(a: set<T>, b: set<T>)
    requires a <= b
    ensures |a| <= |b|
    ensures |a| == |b| ==> a == b
  {
    assert b == a + (b - a);
    assert |b| == |a| + |b - a|;
  }

  /** Bounded and symmetric, and 1 exactly for texts with the same non-empty trigram set. */
  lemma SimilarityLaws(left: string, right: string)
    ensures 0.0 <= Similarity(left, right) <= 1.0
    ensures Similarity(left, right) == Similarity(right, left)
    ensures Similarity(left, right) == 1.0 <==> Trigrams(left) != {} && Trigrams(left) == Trigrams(right)
  {
    var a, b := Trigrams(left), Trigrams(right);
    if a != {} && b != {} {
      assert a * b == b * a && a + b == b + a;
      SubsetIsNoLarger(a * b, a + b);
      SubsetIsNoLarger(a, a + b);
      var x, y := |a * b| as real, |a + b| as real;
      assert y > 0.0 by { SubsetIsNoLarger(a, a + b); var g :| g in a; assert |a| > 0; }
      QuotientBounds(x, y);
      if x == y {
        assert a * b == a + b;
        assert a == b;
      }
      if a == b {
        assert a * b == a && a + b == a;
      }
    }
  }

  lemma QuotientBounds(x: real, y: real)
    requires 0.0 <= x <= y && y > 0.0
    ensures 0.0 <= x / y <= 1.0
    ensures x / y == 1.0 <==> x == y
  {
    assert (x / y) * y == x;
  }

  lemma CountUnion<T>(a: set<T>, b: set<T>)
    ensures |a + b| == |a| + |b| - |a * b|
  {
    assert a + b == a + (b - a) && |a + b| == |a| + |b - a|;
    assert b == (b - a) + a * b && |b| == |b - a| + |a * b|;
  }

  /** With s trigrams shared out of m and n, the similarity is s / (m + n - s), and none without any trigram. */
  lemma SimilarityCountsSharedTrigrams(left: string, right: string)
    ensures var a, b := Trigrams(left), Trigrams(right);
      var shared := |set g | g in a && g in b|;
      if |a| == 0 || |b| == 0 then Similarity(left, right) == 0.0
      else |a| + |b| > shared && Similarity(left, right) * (|a| + |b| - shared) as real == shared as real
  {
    hide Trigrams;
    var a, b := Trigrams(left), Trigrams(right);
    assert (set g | g in a && g in b) == a * b;
    CountUnion(a, b);
    if a != {} && b != {} {
      SubsetIsNoLarger(a, a + b);
      QuotientTimes(|a * b| as real, |a + b| as real);
    }
  }

  lemma QuotientTimes(x: real, y: real)
    requires y > 0.0
    ensures (x / y) * y == x
  {
  }

  /** The character of a word at a position, with blanks before and after it. */
  function CharAt(w: string, p: int): char {
    if 0 <= p < |w| then w[p] else ' '
  }

  /** Three characters in a row, the first of them at most two before the word. */
  predicate WindowAt(w: string, i: nat, g: string) {
    |g| == 3 && g[0] == CharAt(w, i - 2) && g[1] == CharAt(w, i - 1) && g[2] == CharAt(w, i)
  }

  lemma GramIsWindow(w: string, i: nat, g: string)
    requires i <= |w|
    ensures WindowAt(w, i, g) <==> g == Gram(w, i)
  {
    var p, gram := Padded(w), Gram(w, i);
    assert |p| == |w| + 3 && p[i] == CharAt(w, i - 2) && p[i + 1] == CharAt(w, i - 1) && p[i + 2] == CharAt(w, i);
    assert |gram| == 3 && gram[0] == p[i] && gram[1] == p[i + 1] && gram[2] == p[i + 2];
    if WindowAt(w, i, g) {
      assert g == [g[0], g[1], g[2]] && gram == [gram[0], gram[1], gram[2]];
    }
  }

  /** The trigrams of a text are the windows over its words, each with two blanks before and one after it. */
  lemma TrigramsAreWindows(value: string, g: string)
    ensures g in Trigrams(value) <==> exists w, i: nat :: w in Words(value) && i <= |w| && WindowAt(w, i, g)
  {
    hide Words, Gram, WindowAt;
    if g in Trigrams(value) {
      var w, i: nat :| w in Words(value) && i <= |w| && g == Gram(w, i);
      GramIsWindow(w, i, g);
    }
    if exists w, i: nat :: w in Words(value) && i <= |w| && WindowAt(w, i, g) {
      var w, i: nat :| w in Words(value) && i <= |w| && WindowAt(w, i, g);
      GramIsWindow(w, i, g);
    }
  }

  /** Equal slugs are as similar as possible. */
  lemma EqualSlugsScoreOne(name: string)
    requires CompanySlug(Some(name)).Some?
    ensures var slug := CompanySlug(Some(name)).value; Similarity(slug, slug) == 1.0
  {
    var slug := CompanySlug(Some(name)).value;
    SplitGivesWords(Lower(name), "");
    var tail := StripSplits(Words(name));
    var core := StripSuffixes(Words(name));
    assert AllWords(core) by { assert forall i :: 0 <= i < |core| ==> core[i] == Words(name)[i]; }
    WordsOfJoin(core);
    assert core != [];
    assert core[0] in Words(slug);
    assert Gram(core[0], 0) in Trigrams(slug);
    SimilarityLaws(slug, slug);
  }

  // ---- fingerprints ----

  datatype Fingerprints = Fingerprints(
    email: Option<string>, domain: Option<string>, phone: Option<string>,
    nameSlug: Option<string>, location: Option<string>, externalId: Option<string>)

  /** The non-empty ones of city and country, folded and joined by a bar. */
  function LocationKey(city: Option<string>, country: Option<string>): Option<string> {
    var c := if city.Some? && city.value != "" then Some(Lower(city.value)) else None;
    var d := if country.Some? && country.value != "" then Some(Lower(country.value)) else None;
    if c.Some? && d.Some? then Some(c.value + "|" + d.value)
    else if c.Some? then c
    else d
  }

  function FingerprintsOf(lead: NormalizedLead): Fingerprints {
    Fingerprints(
      if lead.Get(Email).Some? && '@' in lead.Get(Email).value then lead.Get(Email) else None,
      lead.Get(WebsiteDomain),
      if lead.Get(Phone).Some? && lead.Get(Phone).value != "" && lead.Get(Phone).value[0] == '+'
        then lead.Get(Phone) else None,
      CompanySlug(lead.Get(CompanyName)),
      LocationKey(lead.Get(City), lead.Get(Country)),
      lead.ExternalId())
  }

  /** A text that a place is known by: folded, and none if it is empty. */
  function Folded(text: Option<string>): Option<string> {
    if text.Some? && text.value != "" then Some(Lower(text.value)) else None
  }

  /**
   * Two places have the same key exactly when city and country agree up to case, or when one side knows only a city
   * and the other only a country of that name; as long as no name has a bar in it.
   */
  lemma PlacesAgreeExactly(city: Option<string>, country: Option<string>, city': Option<string>,
                           country': Option<string>)
    requires forall t :: t in {Folded(city), Folded(country), Folded(city'), Folded(country')} && t.Some? ==>
      '|' !in t.value
    ensures var a, b, c, d := Folded(city), Folded(country), Folded(city'), Folded(country');
      LocationKey(city, country) == LocationKey(city', country') <==>
        (a == c && b == d) || (b == None && c == None && a == d) || (a == None && d == None && b == c)
    ensures LocationKey(city, country) == None <==> Folded(city) == None && Folded(country) == None
  {
    hide Lower;
    var a, b, c, d := Folded(city), Folded(country), Folded(city'), Folded(country');
    if a.Some? && b.Some? && c.Some? && d.Some? {
      BarSplits(a.value, b.value, c.value, d.value);
    } else if a.Some? && b.Some? {
      BarInside(a.value, b.value);
    } else if c.Some? && d.Some? {
      BarInside(c.value, d.value);
    }
  }

  lemma BarInside(a: string, b: string)
    ensures '|' in a + "|" + b
  {
    assert (a + "|" + b)[|a|] == '|';
  }

  lemma BarSplits(a: string, b: string, c: string, d: string)
    requires '|' !in a && '|' !in c
    ensures a + "|" + b == c + "|" + d <==> a == c && b == d
  {
    var x, y := a + "|" + b, c + "|" + d;
    assert x[|a|] == '|' && y[|c|] == '|';
    assert forall i :: 0 <= i < |a| ==> x[i] == a[i] && a[i] in a;
    assert forall i :: 0 <= i < |c| ==> y[i] == c[i] && c[i] in c;
    if x == y {
      assert |a| == |c|;
      assert x[..|a|] == a && y[..|c|] == c && x[|a| + 1..] == b && y[|c| + 1..] == d;
    }
  }
}
