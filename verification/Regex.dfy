/** The regular expressions of the text formats: literals, one white-space character,
    and captured runs or single characters of one character class. For these, the greedy
    scanner below is exact: it finds a match if and only if the text has one. */
module Regex {
  import opened Text

  datatype CharClass = Digits | Letters | NameChars | PathChars | KindChars

  predicate InClass(cls: CharClass, c: char) {
    match cls
    case Digits => IsDigit(c)
    case Letters => IsLetter(c)
    case NameChars => IsLetter(c) || IsDigit(c) || c in ".-+_="
    case PathChars => IsLetter(c) || IsDigit(c) || c in "./-+_="
    case KindChars => c in "F|D"
  }

  predicate IsLetter(c: char) {
    'a' <= c <= 'z' || 'A' <= c <= 'Z'
  }

  /** `\s` of an ECMAScript expression. */
  predicate IsSpace(c: char) {
    c == ' ' || c == '\n' || c == '\t' || c == '\r' || c == 11 as char || c == 12 as char
  }

  predicate AllIn(cls: CharClass, s: string) {
    forall i :: 0 <= i < |s| ==> InClass(cls, s[i])
  }

  /** `Run(cls, n, _)` captures a run of at least `n` characters of the class, `One` a
      single character. */
  datatype Pattern =
    | End
    | Lit(text: string, next: Pattern)
    | Space(next: Pattern)
    | One(cls: CharClass, next: Pattern)
    | Run(cls: CharClass, least: nat, next: Pattern)

  // ---- Words and fields, each followed by one space ----

  function Spaced(word: string, text: string): string {
    word + " " + text
  }

  function Word(lit: string, next: Pattern): Pattern {
    Lit(lit, Space(next))
  }

  function Field(cls: CharClass, next: Pattern): Pattern {
    Run(cls, 1, Space(next))
  }

  // ---- The language of a pattern ----

  /** `text` matches the pattern with these captured groups. */
  predicate Denotes(p: Pattern, groups: seq<string>, text: string) {
    match p
    case End => groups == [] && text == ""
    case Lit(lit, next) => lit <= text && Denotes(next, groups, text[|lit|..])
    case Space(next) => text != "" && IsSpace(text[0]) && Denotes(next, groups, text[1..])
    case One(cls, next) =>
      && groups != [] && text != "" && InClass(cls, text[0]) && groups[0] == text[..1]
      && Denotes(next, groups[1..], text[1..])
    case Run(cls, least, next) =>
      && groups != [] && groups[0] <= text && |groups[0]| >= least && AllIn(cls, groups[0])
      && Denotes(next, groups[1..], text[|groups[0]|..])
  }

  lemma LitStep(lit: string, p: Pattern, groups: seq<string>, text: string)
    requires Denotes(p, groups, text)
    ensures Denotes(Lit(lit, p), groups, lit + text)
  {
    assert (lit + text)[|lit|..] == text;
  }

  lemma WordStep(lit: string, p: Pattern, groups: seq<string>, text: string)
    requires Denotes(p, groups, text)
    ensures Denotes(Lit(lit, Space(p)), groups, lit + " " + text)
  {
    assert (" " + text)[1..] == text;
    LitStep(lit, Space(p), groups, " " + text);
    assert lit + (" " + text) == lit + " " + text;
  }

  lemma RunStep(cls: CharClass, least: nat, p: Pattern, g: string, groups: seq<string>, text: string)
    requires Denotes(p, groups, text) && |g| >= least && AllIn(cls, g)
    ensures Denotes(Run(cls, least, p), [g] + groups, g + text)
  {
    assert (g + text)[|g|..] == text && ([g] + groups)[1..] == groups;
  }

  lemma OneStep(cls: CharClass, p: Pattern, g: string, groups: seq<string>, text: string)
    requires Denotes(p, groups, text) && |g| == 1 && InClass(cls, g[0])
    ensures Denotes(One(cls, p), [g] + groups, g + text)
  {
    assert (g + text)[1..] == text && (g + text)[..1] == g && ([g] + groups)[1..] == groups;
  }

  lemma FieldStep(cls: CharClass, p: Pattern, g: string, groups: seq<string>, text: string)
    requires Denotes(p, groups, text) && g != "" && AllIn(cls, g)
    ensures Denotes(Run(cls, 1, Space(p)), [g] + groups, g + " " + text)
  {
    assert (" " + text)[1..] == text;
    RunStep(cls, 1, Space(p), g, groups, " " + text);
    assert g + (" " + text) == g + " " + text;
  }

  // ---- The scanner ----

  /** Length of the longest prefix in the class. */
  function Span(cls: CharClass, s: string): (n: nat)
    ensures n <= |s| && AllIn(cls, s[..n])
    ensures n < |s| ==> !InClass(cls, s[n])
  {
    if s == "" || !InClass(cls, s[0]) then 0
    else
      var m := Span(cls, s[1..]);
      assert s[..m + 1] == [s[0]] + s[1..][..m];
      m + 1
  }

  datatype Matched = Matched(groups: seq<string>, rest: string)

  /** The match at the start of `s`, if there is one. */
  function MatchHere(p: Pattern, s: string): Option<Matched>
    decreases p
  {
    match p
    case End => Some(Matched([], s))
    case Lit(lit, next) => if lit <= s then MatchHere(next, s[|lit|..]) else None
    case Space(next) => if s != "" && IsSpace(s[0]) then MatchHere(next, s[1..]) else None
    case One(cls, next) =>
      if s == "" || !InClass(cls, s[0]) then None
      else (match MatchHere(next, s[1..])
            case None => None
            case Some(m) => Some(Matched([s[..1]] + m.groups, m.rest)))
    case Run(cls, least, next) =>
      var n := Span(cls, s);
      if n < least then None
      else match MatchHere(next, s[n..])
           case None => None
           case Some(m) => Some(Matched([s[..n]] + m.groups, m.rest))
  }

  /** What follows a run can never start inside its class, so nothing is gained by a
      shorter run. */
  predicate Stops(cls: CharClass, p: Pattern) {
    match p
    case End => true
    case Lit(lit, _) => lit != "" && !InClass(cls, lit[0])
    case Space(_) => true
    case One(_, _) => false
    case Run(_, _, _) => false
  }

  predicate Separated(p: Pattern) {
    match p
    case End => true
    case Lit(_, next) => Separated(next)
    case Space(next) => Separated(next)
    case One(_, next) => Separated(next)
    case Run(cls, _, next) => Stops(cls, next) && Separated(next)
  }

  /** A pattern that ends in a run needs a `rest` that cannot extend that run. */
  predicate Bounded(p: Pattern, rest: string) {
    match p
    case End => true
    case Lit(_, next) => Bounded(next, rest)
    case Space(next) => Bounded(next, rest)
    case One(_, next) => Bounded(next, rest)
    case Run(cls, _, next) => if next == End then rest == "" || !InClass(cls, rest[0]) else Bounded(next, rest)
  }

  lemma {:induction false} SpanIs(cls: CharClass, g: string, rest: string)
    requires AllIn(cls, g) && (rest == "" || !InClass(cls, rest[0]))
    ensures Span(cls, g + rest) == |g|
  {
    if g == "" {
      assert g + rest == rest;
    } else {
      assert (g + rest)[1..] == g[1..] + rest;
      SpanIs(cls, g[1..], rest);
    }
  }

  /** Every match of the pattern is found by the scanner, with the same groups. */
  lemma {:induction false} ScannerComplete(p: Pattern, groups: seq<string>, text: string, rest: string)
    requires Separated(p) && Bounded(p, rest) && Denotes(p, groups, text)
    ensures MatchHere(p, text + rest) == Some(Matched(groups, rest))
    decreases p
  {
    hide InClass, Stops;
    match p
    case End =>
      assert text + rest == rest;
    case Lit(lit, next) =>
      ScannerComplete(next, groups, text[|lit|..], rest);
      DropPrefix(text, |lit|, rest);
    case Space(next) =>
      ScannerComplete(next, groups, text[1..], rest);
      DropPrefix(text, 1, rest);
    case One(cls, next) =>
      ScannerComplete(next, groups[1..], text[1..], rest);
      DropPrefix(text, 1, rest);
      assert (text + rest)[..1] == text[..1] && groups == [groups[0]] + groups[1..];
    case Run(cls, least, next) =>
      ScannerComplete(next, groups[1..], text[|groups[0]|..], rest);
      RunComplete(cls, least, next, groups, text, rest);
  }

  lemma DropPrefix(text: string, n: nat, rest: string)
    requires n <= |text|
    ensures (text + rest)[n..] == text[n..] + rest
  {
  }

  lemma RunComplete(cls: CharClass, least: nat, next: Pattern, groups: seq<string>, text: string, rest: string)
    requires Stops(cls, next) && Bounded(Run(cls, least, next), rest)
    requires Denotes(Run(cls, least, next), groups, text)
    requires MatchHere(next, text[|groups[0]|..] + rest) == Some(Matched(groups[1..], rest))
    ensures MatchHere(Run(cls, least, next), text + rest) == Some(Matched(groups, rest))
  {
    hide MatchHere;
    var g, after := groups[0], text[|groups[0]|..];
    assert text + rest == g + (after + rest);
    StopsAfter(cls, next, groups[1..], after);
    SpanIs(cls, g, after + rest);
    assert (text + rest)[|g|..] == after + rest && (text + rest)[..|g|] == g;
    assert [g] + groups[1..] == groups;
    MatchRun(cls, least, next, text + rest, |g|);
  }

  lemma StopsAfter(cls: CharClass, next: Pattern, groups: seq<string>, text: string)
    requires Stops(cls, next) && Denotes(next, groups, text)
    ensures next == End || (text != "" && !InClass(cls, text[0]))
  {
    assert next.Lit? ==> text[0] == next.text[0];
  }

  lemma MatchRun(cls: CharClass, least: nat, next: Pattern, s: string, n: nat)
    requires Span(cls, s) == n >= least && MatchHere(next, s[n..]).Some?
    ensures var m := MatchHere(next, s[n..]).value;
            MatchHere(Run(cls, least, next), s) == Some(Matched([s[..n]] + m.groups, m.rest))
  {
  }

  /** Every match the scanner reports is a match of the pattern. */
  lemma {:induction false} ScannerSound(p: Pattern, s: string) returns (text: string)
    requires MatchHere(p, s).Some?
    ensures var m := MatchHere(p, s).value; Denotes(p, m.groups, text) && s == text + m.rest
    decreases p
  {
    hide Denotes;
    var m := MatchHere(p, s).value;
    match p
    case End =>
      text := "";
      EndDenotes();
    case Lit(lit, next) =>
      var t := ScannerSound(next, s[|lit|..]);
      LitStep(lit, next, m.groups, t);
      text := lit + t;
    case Space(next) =>
      var t := ScannerSound(next, s[1..]);
      SpaceStep(s[0], next, m.groups, t);
      text := [s[0]] + t;
    case One(cls, next) =>
      var t := ScannerSound(next, s[1..]);
      OneStep(cls, next, s[..1], MatchHere(next, s[1..]).value.groups, t);
      text := s[..1] + t;
    case Run(cls, least, next) =>
      var n := Span(cls, s);
      var t := ScannerSound(next, s[n..]);
      RunSound(cls, least, next, s, n, MatchHere(next, s[n..]).value, t);
      text := s[..n] + t;
  }

  lemma RunSound(cls: CharClass, least: nat, next: Pattern, s: string, n: nat, m: Matched, t: string)
    requires n == Span(cls, s) >= least
    requires Denotes(next, m.groups, t) && s[n..] == t + m.rest
    ensures Denotes(Run(cls, least, next), [s[..n]] + m.groups, s[..n] + t)
    ensures s == s[..n] + t + m.rest
  {
    hide Denotes, InClass, AllIn;
    RunStep(cls, least, next, s[..n], m.groups, t);
    assert s == s[..n] + s[n..];
  }

  lemma EndDenotes()
    ensures Denotes(End, [], "")
  {
  }

  lemma SpaceStep(c: char, p: Pattern, groups: seq<string>, text: string)
    requires Denotes(p, groups, text) && IsSpace(c)
    ensures Denotes(Space(p), groups, [c] + text)
  {
    assert ([c] + text)[1..] == text;
  }

  lemma {:induction false} BoundedByEnd(p: Pattern)
    ensures Bounded(p, "")
  {
    if !p.End? {
      BoundedByEnd(p.next);
    }
  }

  /** `std::regex_match`: the groups when the whole text matches. */
  function FullMatch(p: Pattern, s: string): Option<seq<string>> {
    match MatchHere(p, s)
    case Some(m) => if m.rest == "" then Some(m.groups) else None
    case None => None
  }

  /** The scanner decides exactly whether a whole text matches, and with what groups. */
  lemma FullMatchIff(p: Pattern, groups: seq<string>, s: string)
    requires Separated(p)
    ensures FullMatch(p, s) == Some(groups) <==> Denotes(p, groups, s)
  {
    hide MatchHere, Denotes, Separated, Bounded;
    if Denotes(p, groups, s) {
      BoundedByEnd(p);
      ScannerComplete(p, groups, s, "");
      assert s + "" == s;
    } else if MatchHere(p, s).Some? {
      var text := ScannerSound(p, s);
      assert MatchHere(p, s).value.rest == "" ==> text == s;
    }
  }

  /** `std::regex_search`: the leftmost match. */
  function Search(p: Pattern, s: string): (found: Option<Matched>)
    decreases |s|
  {
    match MatchHere(p, s)
    case Some(m) => Some(m)
    case None => if s == "" then None else Search(p, s[1..])
  }

  /** A search steps over a prefix in which no match starts. */
  lemma {:induction false} SearchSkips(p: Pattern, before: string, s: string)
    requires forall i :: 0 <= i < |before| ==> MatchHere(p, (before + s)[i..]).None?
    ensures Search(p, before + s) == Search(p, s)
  {
    hide MatchHere;
    if before == "" {
      assert before + s == s;
    } else {
      var after := before[1..] + s;
      assert (before + s)[0..] == before + s;
      assert (before + s)[1..] == after;
      forall i | 0 <= i < |before[1..]| ensures MatchHere(p, after[i..]).None? {
        assert (before + s)[i + 1..] == after[i..];
      }
      SearchSkips(p, before[1..], s);
    }
  }

  lemma DigitsAreDigits(s: string)
    requires AllDigits(s)
    ensures AllIn(Digits, s)
  {
  }

  // ---- Texts that do not match ----

  predicate NoSpaces(s: string) {
    forall i :: 0 <= i < |s| ==> !IsSpace(s[i])
  }

  lemma LitFails(lit: string, p: Pattern, text: string)
    requires MatchHere(p, text).None?
    ensures MatchHere(Lit(lit, p), lit + text).None?
  {
    assert (lit + text)[|lit|..] == text;
  }

  lemma WordFails(lit: string, p: Pattern, text: string)
    requires MatchHere(p, text).None?
    ensures MatchHere(Word(lit, p), Spaced(lit, text)).None?
  {
    assert Spaced(lit, text)[|lit|..] == " " + text;
    assert (" " + text)[1..] == text;
  }

  lemma {:induction false} SpanStops(cls: CharClass, s: string, k: nat)
    requires k < |s| && !InClass(cls, s[k])
    ensures Span(cls, s) <= k
  {
    if k > 0 {
      SpanStops(cls, s[1..], k - 1);
    }
  }

  lemma FieldSpan(cls: CharClass, g: string, text: string)
    requires NoSpaces(g)
    ensures var n := Span(cls, Spaced(g, text));
            n <= |g| && (n == |g| <==> AllIn(cls, g)) && (n < |g| ==> !IsSpace(g[n]))
  {
    var s := Spaced(g, text);
    var n := Span(cls, s);
    assert s[|g|] == ' ' && !InClass(cls, ' ');
    SpanStops(cls, s, |g|);
    if n == |g| {
      assert s[..n] == g;
    } else {
      assert s[n] == g[n];
    }
  }

  /** A field fails when its text is not of the class, or when what follows fails. */
  lemma FieldFails(cls: CharClass, p: Pattern, g: string, text: string)
    requires NoSpaces(g) && (g == "" || !AllIn(cls, g) || MatchHere(p, text).None?)
    ensures MatchHere(Field(cls, p), Spaced(g, text)).None?
  {
    FieldSpan(cls, g, text);
    hide Span, InClass;
    var s := Spaced(g, text);
    var n := Span(cls, s);
    assert s[n..] != "" && s[n..][0] == s[n];
    if n < |g| {
      assert s[n] == g[n];
    } else {
      assert s[n..][1..] == text;
    }
  }

  /** So does a run that may be empty. */
  lemma RunFails(cls: CharClass, p: Pattern, g: string, text: string)
    requires NoSpaces(g) && (!AllIn(cls, g) || MatchHere(p, text).None?)
    ensures MatchHere(Run(cls, 0, Space(p)), Spaced(g, text)).None?
  {
    FieldSpan(cls, g, text);
    hide Span, InClass;
    var s := Spaced(g, text);
    var n := Span(cls, s);
    assert s[n..] != "" && s[n..][0] == s[n];
    if n < |g| {
      assert s[n] == g[n];
    } else {
      assert s[n..][1..] == text;
    }
  }
}
