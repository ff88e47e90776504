/** Normal form of an email address (app/normalization/email.py, app/normalization/text.py). */
module Emails {
  import opened Text

  function StripLeft(s: string): string {
    if s != "" && IsSpace(s[0]) then StripLeft(s[1..]) else s
  }

  function StripRight(s: string): string {
    if s != "" && IsSpace(s[|s| - 1]) then StripRight(s[..|s| - 1]) else s
  }

  function Strip(s: string): string {
    StripRight(StripLeft(s))
  }

  predicate IsBracket(c: char) {
    c == '<' || c == '>'
  }

  function StripBracketsLeft(s: string): string {
    if s != "" && IsBracket(s[0]) then StripBracketsLeft(s[1..]) else s
  }

  function StripBracketsRight(s: string): string {
    if s != "" && IsBracket(s[|s| - 1]) then StripBracketsRight(s[..|s| - 1]) else s
  }

  function StripBrackets(s: string): string {
    StripBracketsRight(StripBracketsLeft(s))
  }

  /** Every run of whitespace becomes one space. */
  function Collapse(s: string): string {
    if s == "" then ""
    else if !IsSpace(s[0]) then [s[0]] + Collapse(s[1..])
    else if |s| > 1 && IsSpace(s[1]) then Collapse(s[1..])
    else [' '] + Collapse(s[1..])
  }

  function CleanText(s: string): string {
    Strip(Collapse(s))
  }

  const MAILTO := "mailto:"

  function RemoveMailto(s: string): string {
    if MAILTO <= s then s[|MAILTO|..] else s
  }

  function Trimmed(s: string): string {
    Strip(StripBrackets(Strip(RemoveMailto(CleanText(s)))))
  }

  function NormalizeEmail(s: string): Option<string> {
    var text := Lower(Trimmed(s));
    if text == "" then None else Some(text)
  }

  // ---- when a normal form is already normal ----

  /** Only single plain spaces, as left by `Collapse`. */
  predicate Collapsed(s: string) {
    (forall i :: 0 <= i < |s| && IsSpace(s[i]) ==> s[i] == ' ') &&
    (forall i :: 0 <= i < |s| - 1 ==> !(s[i] == ' ' && s[i + 1] == ' '))
  }

  /** No whitespace at either end. */
  predicate Bare(s: string) {
    s == "" || (!IsSpace(s[0]) && !IsSpace(s[|s| - 1]))
  }

  /** `t` occurs in `s` as a contiguous part. */
  ghost predicate Part(t: string, s: string) {
    exists i, j :: 0 <= i <= j <= |s| && t == s[i..j]
  }

  lemma PartOfPart(t: string, u: string, s: string)
    requires Part(t, u) && Part(u, s)
    ensures Part(t, s)
  {
    var i, j :| 0 <= i <= j <= |u| && t == u[i..j];
    var k, l :| 0 <= k <= l <= |s| && u == s[k..l];
    forall m | 0 <= m < |t| ensures t[m] == s[k + i..k + j][m] {
      assert t[m] == u[i + m] && u[i + m] == s[k + (i + m)];
    }
    assert t == s[k + i..k + j];
  }

  lemma {:induction false} CollapseCollapses(s: string)
    ensures Collapsed(Collapse(s))
    ensures s != "" ==> Collapse(s) != "" && (IsSpace(s[0]) <==> IsSpace(Collapse(s)[0]))
  {
    if s != "" {
      CollapseCollapses(s[1..]);
      var rest := Collapse(s[1..]);
      if !IsSpace(s[0]) {
        assert Collapse(s) == [s[0]] + rest;
      } else if |s| == 1 || !IsSpace(s[1]) {
        assert Collapse(s) == [' '] + rest;
      }
    }
  }

  lemma {:induction false} CollapsedIsFixed(s: string)
    requires Collapsed(s)
    ensures Collapse(s) == s
  {
    if s != "" {
      CollapsedIsFixed(s[1..]);
      assert s == [s[0]] + s[1..];
    }
  }

  lemma CollapsedPart(t: string, s: string)
    requires Part(t, s) && Collapsed(s)
    ensures Collapsed(t)
  {
    var i, j :| 0 <= i <= j <= |s| && t == s[i..j];
    forall k | 0 <= k < |t| - 1 ensures !(t[k] == ' ' && t[k + 1] == ' ') {
      assert t[k] == s[i + k] && t[k + 1] == s[i + k + 1];
    }
  }

  lemma {:induction false} StripLeftPart(s: string)
    ensures Part(StripLeft(s), s) && (StripLeft(s) == "" || !IsSpace(StripLeft(s)[0]))
  {
    if s != "" && IsSpace(s[0]) {
      StripLeftPart(s[1..]);
      assert s[1..] == s[1..|s|];
      PartOfPart(StripLeft(s[1..]), s[1..], s);
    } else {
      assert s == s[0..|s|];
    }
  }

  lemma {:induction false} StripRightPart(s: string)
    ensures StripRight(s) <= s
    ensures StripRight(s) == "" || !IsSpace(StripRight(s)[|StripRight(s)| - 1])
  {
    if s != "" && IsSpace(s[|s| - 1]) {
      StripRightPart(s[..|s| - 1]);
    }
  }

  lemma StripIsBare(s: string)
    ensures Part(Strip(s), s) && Bare(Strip(s)) && |Strip(s)| <= |s|
    ensures Bare(s) ==> Strip(s) == s
  {
    StripLeftPart(s);
    var u := StripLeft(s);
    StripRightPart(u);
    assert Strip(s) == u[0..|Strip(s)|];
    PartOfPart(Strip(s), u, s);
  }

  lemma {:induction false} StripBracketsLeftPart(s: string)
    ensures Part(StripBracketsLeft(s), s)
  {
    if s != "" && IsBracket(s[0]) {
      StripBracketsLeftPart(s[1..]);
      assert s[1..] == s[1..|s|];
      PartOfPart(StripBracketsLeft(s[1..]), s[1..], s);
    } else {
      assert s == s[0..|s|];
    }
  }

  lemma {:induction false} StripBracketsRightPrefix(s: string)
    ensures StripBracketsRight(s) <= s
  {
    if s != "" && IsBracket(s[|s| - 1]) {
      StripBracketsRightPrefix(s[..|s| - 1]);
    }
  }

  lemma StripBracketsPart(s: string)
    ensures Part(StripBrackets(s), s) && |StripBrackets(s)| <= |s|
    ensures |StripBrackets(s)| == |s| <==> s == "" || (!IsBracket(s[0]) && !IsBracket(s[|s| - 1]))
    ensures s == "" || (!IsBracket(s[0]) && !IsBracket(s[|s| - 1])) ==> StripBrackets(s) == s
  {
    StripBracketsLeftPart(s);
    var u := StripBracketsLeft(s);
    StripBracketsRightPrefix(u);
    assert StripBrackets(s) == u[0..|StripBrackets(s)|];
    PartOfPart(StripBrackets(s), u, s);
    if s != "" && IsBracket(s[0]) {
      StripBracketsLeftPart(s[1..]);
      assert |u| < |s|;
    } else if s != "" && IsBracket(s[|s| - 1]) {
      StripBracketsRightPrefix(s[..|s| - 1]);
    }
  }

  lemma CleanTextIsClean(s: string)
    ensures Collapsed(CleanText(s)) && Bare(CleanText(s))
  {
    CollapseCollapses(s);
    StripIsBare(Collapse(s));
    CollapsedPart(CleanText(s), Collapse(s));
  }

  /** No tab, line break or other control separator is left, and no blank at an end or next to another. */
  lemma CleanTextHasPlainBlanks(s: string, i: nat)
    requires i < |CleanText(s)|
    ensures var c := CleanText(s)[i] as int;
      !(9 <= c <= 13) && !(28 <= c <= 31) &&
      (c == 32 ==> 0 < i < |CleanText(s)| - 1 && CleanText(s)[i - 1] != ' ' && CleanText(s)[i + 1] != ' ')
  {
    hide CleanText;
    CleanTextIsClean(s);
  }

  lemma TrimmedIsClean(s: string)
    ensures Collapsed(Trimmed(s)) && Bare(Trimmed(s))
  {
    CleanTextIsClean(s);
    var c := CleanText(s);
    var m := RemoveMailto(c);
    assert Part(m, c) by {
      assert m == c[if MAILTO <= c then |MAILTO| else 0..|c|];
    }
    StripIsBare(m);
    StripBracketsPart(Strip(m));
    StripIsBare(StripBrackets(Strip(m)));
    PartOfPart(StripBrackets(Strip(m)), Strip(m), m);
    PartOfPart(Trimmed(s), StripBrackets(Strip(m)), m);
    PartOfPart(Trimmed(s), m, c);
    CollapsedPart(Trimmed(s), c);
  }

  lemma LowerKeepsClean(s: string)
    requires Collapsed(s) && Bare(s)
    ensures Collapsed(Lower(s)) && Bare(Lower(s)) && Lower(Lower(s)) == Lower(s)
  {
  }

  /** Nothing left for a second normalisation to remove. */
  predicate PlainAddress(t: string) {
    !(MAILTO <= t) && (t == "" || (!IsBracket(t[0]) && !IsBracket(t[|t| - 1])))
  }

  lemma TrimmingPlainText(t: string)
    requires CleanText(t) == t && Bare(t)
    ensures if PlainAddress(t) then Trimmed(t) == t else |Trimmed(t)| < |t|
  {
    hide Strip, StripBrackets, CleanText, IsBracket, IsSpace;
    var m := RemoveMailto(t);
    StripIsBare(m);
    StripBracketsPart(Strip(m));
    StripIsBare(StripBrackets(Strip(m)));
    if !(MAILTO <= t) {
      assert m == t && Strip(m) == m;
    }
  }

  /**
   * A normalised address is a fixed point exactly when it kept no `mailto:` prefix and no outer angle
   * bracket. `MAILTO:a@b` does keep one, because the prefix is removed before the case is folded.
   */
  lemma NormalFormIsFixedExactlyWhenPlain(s: string)
    requires NormalizeEmail(s).Some?
    ensures var t := NormalizeEmail(s).value;
      NormalizeEmail(t) == Some(t) <==> PlainAddress(t)
  {
    hide StripLeft, StripRight, StripBracketsLeft, StripBracketsRight, Collapse, IsSpace, Trimmed, PlainAddress;
    var t := NormalizeEmail(s).value;
    TrimmedIsClean(s);
    LowerKeepsClean(Trimmed(s));
    CollapsedIsFixed(t);
    StripIsBare(t);
    TrimmingPlainText(t);
  }

  lemma PrefixedIsClean(prefix: string, address: string)
    requires prefix != "" && address != "" && Collapsed(address) && Bare(address)
    requires forall i :: 0 <= i < |prefix| ==> !IsSpace(prefix[i])
    ensures CleanText(prefix + address) == prefix + address && Bare(prefix + address)
  {
    var u := prefix + address;
    assert forall i :: |prefix| <= i < |u| ==> u[i] == address[i - |prefix|];
    CollapsedIsFixed(u);
    StripIsBare(u);
  }

  /** So an address written with an upper-case prefix is stored in a form that normalises differently. */
  lemma UpperCaseMailtoSurvives(address: string)
    requires address != "" && Collapsed(address) && Bare(address) && PlainAddress(address)
    requires Lower(address) == address
    ensures NormalizeEmail("MAILTO:" + address) == Some(MAILTO + address)
    ensures NormalizeEmail(MAILTO + address) == Some(address)
  {
    hide Trimmed, Collapsed, Bare, PlainAddress;
    UpperKept(address);
    LowerDropped(address);
  }

  lemma LowerDropped(address: string)
    requires address != "" && Collapsed(address) && Bare(address) && PlainAddress(address)
    ensures Trimmed(MAILTO + address) == address
  {
    hide Strip, StripBrackets, CleanText, Collapsed, IsSpace;
    PrefixedIsClean(MAILTO, address) by { MailtoHasNoSpace(); }
    assert RemoveMailto(MAILTO + address) == address;
    StripBracketsPart(address);
    StripIsBare(address);
  }

  lemma MailtoHasNoSpace()
    ensures forall i :: 0 <= i < |MAILTO| ==> !IsSpace(MAILTO[i])
  {
  }

  lemma OtherPrefixIsKept(prefix: string, address: string)
    requires prefix != "" && address != "" && Collapsed(address) && Bare(address) && PlainAddress(address)
    requires forall i :: 0 <= i < |prefix| ==> !IsSpace(prefix[i])
    requires !IsBracket(prefix[0]) && !(MAILTO <= prefix + address)
    ensures Trimmed(prefix + address) == prefix + address
  {
    hide StripLeft, StripRight, StripBracketsLeft, StripBracketsRight, Collapse;
    var s := prefix + address;
    PrefixedIsClean(prefix, address);
    assert s[0] == prefix[0] && s[|s| - 1] == address[|address| - 1];
    StripBracketsPart(s);
    StripIsBare(s);
  }

  lemma UpperKept(address: string)
    requires address != "" && Collapsed(address) && Bare(address) && PlainAddress(address)
    requires Lower(address) == address
    ensures NormalizeEmail("MAILTO:" + address) == Some(MAILTO + address)
  {
    hide Trimmed, Collapsed, Bare, PlainAddress;
    var prefix := "MAILTO:";
    assert prefix[0] == 'M' && MAILTO[0] == 'm';
    OtherPrefixIsKept(prefix, address);
    LowerOfConcat(prefix, address);
    assert Lower(prefix) == MAILTO;
  }

  lemma LowerOfConcat(a: string, b: string)
    ensures Lower(a + b) == Lower(a) + Lower(b)
  {
  }

  lemma CleanIsKept(text: string)
    requires Collapsed(text) && Bare(text)
    ensures CleanText(text) == text
  {
    CollapsedIsFixed(text);
    StripIsBare(text);
  }

  lemma PlainEmailIsKept(text: string)
    requires text != "" && Collapsed(text) && Bare(text) && PlainAddress(text) && Lower(text) == text
    ensures NormalizeEmail(text) == Some(text)
  {
    CleanIsKept(text);
    TrimmingPlainText(text);
  }
}
