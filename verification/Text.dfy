/** Text primitives shared by every on-disk format of the repository: decimal
    numbers, lines, and the "name, newline, number, newline" tables that the
    chunk store uses for its index and its delete list. A character stands for
    one byte. */
module Text {

  datatype Option<+T> = None | Some(value: T)

  // ---- Decimal numbers (std::to_string, std::stoull, std::stoi) ----

  predicate IsDigit(c: char) {
    '0' <= c <= '9'
  }

  predicate AllDigits(s: string) {
    forall i :: 0 <= i < |s| ==> IsDigit(s[i])
  }

  function Digit(n: nat): (c: char)
    requires n < 10
  {
    "0123456789"[n]
  }

  function Dec(n: nat): (s: string)
    ensures |s| > 0 && AllDigits(s)
  {
    if n < 10 then [Digit(n)] else Dec(n / 10) + [Digit(n % 10)]
  }

  function ParseDec(s: string): nat
    requires AllDigits(s)
  {
    if s == "" then 0
    else 10 * ParseDec(s[..|s| - 1]) + (s[|s| - 1] as int - '0' as int)
  }

  predicate IsNumber(s: string) {
    s != "" && AllDigits(s)
  }

  const INT_MAX: nat := 0x7fff_ffff

  /** `std::stoi` throws on a number beyond an int. */
  predicate FitsInt(digits: string) {
    IsNumber(digits) && ParseDec(digits) <= INT_MAX
  }

  lemma {:induction false} DecRoundTrip(n: nat)
    ensures ParseDec(Dec(n)) == n
  {
    if n < 10 {
      assert Dec(n)[..0] == "";
    } else {
      DecRoundTrip(n / 10);
      assert Dec(n)[..|Dec(n)| - 1] == Dec(n / 10);
    }
  }

  /** `isspace` in the C locale. */
  predicate IsBlank(c: char) {
    c == ' ' || c == '\n' || c == '\t' || c == '\r' || c == 11 as char || c == 12 as char
  }

  function SkipBlanks(s: string): string {
    if s != "" && IsBlank(s[0]) then SkipBlanks(s[1..]) else s
  }

  // ---- Lines (std::getline) ----

  predicate NoNewline(s: string) {
    forall i :: 0 <= i < |s| ==> s[i] != '\n'
  }

  /** Where the first newline is, or the length when there is none. */
  function LineEnd(s: string): (n: nat)
    ensures n <= |s|
    ensures NoNewline(s[..n])
    ensures n < |s| ==> s[n] == '\n'
  {
    if s == "" || s[0] == '\n' then 0
    else
      var m := LineEnd(s[1..]);
      assert s[..m + 1] == [s[0]] + s[1..][..m];
      m + 1
  }

  /** What one getline call stores. */
  function Line(s: string): string {
    s[..LineEnd(s)]
  }

  /** What is left in the stream after that call. */
  function AfterLine(s: string): (r: string)
    ensures s != "" ==> |r| < |s|
  {
    if LineEnd(s) == |s| then "" else s[LineEnd(s) + 1..]
  }

  lemma {:induction false} LineEndIs(s: string, n: nat)
    requires n < |s| && s[n] == '\n' && NoNewline(s[..n])
    ensures LineEnd(s) == n
  {
    if n > 0 {
      assert s[0] == s[..n][0];
      assert s[1..][..n - 1] == s[..n][1..];
      LineEndIs(s[1..], n - 1);
    }
  }

  lemma LineOf(line: string, rest: string)
    requires NoNewline(line)
    ensures Line(line + "\n" + rest) == line
    ensures AfterLine(line + "\n" + rest) == rest
  {
    var s := line + "\n" + rest;
    assert s[..|line|] == line;
    LineEndIs(s, |line|);
  }

  /** `split(s, '\n')`: the lines a getline loop collects; a final newline opens
      no further line. */
  function SplitLines(s: string): (lines: seq<string>)
    decreases |s|
  {
    if s == "" then [] else [Line(s)] + SplitLines(AfterLine(s))
  }

  function JoinLines(lines: seq<string>): string {
    if lines == [] then "" else lines[0] + "\n" + JoinLines(lines[1..])
  }

  lemma {:induction false} SplitJoined(lines: seq<string>)
    requires forall i :: 0 <= i < |lines| ==> NoNewline(lines[i])
    ensures SplitLines(JoinLines(lines)) == lines
  {
    if lines != [] {
      LineOf(lines[0], JoinLines(lines[1..]));
      SplitJoined(lines[1..]);
    }
  }

  lemma {:induction false} JoinLinesAppend(a: seq<string>, b: seq<string>)
    ensures JoinLines(a + b) == JoinLines(a) + JoinLines(b)
  {
    if a == [] {
      assert a + b == b;
    } else {
      assert (a + b)[1..] == a[1..] + b;
      JoinLinesAppend(a[1..], b);
    }
  }

  lemma DigitsHaveNoNewline(s: string)
    requires AllDigits(s)
    ensures NoNewline(s)
  {
  }

  // ---- Tables of (name, number) pairs ----

  type Pair = (string, nat)

  predicate NamesOk(ps: seq<Pair>) {
    forall i :: 0 <= i < |ps| ==> NoNewline(ps[i].0)
  }

  function PairLines(ps: seq<Pair>): (lines: seq<string>) {
    if ps == [] then [] else [ps[0].0, Dec(ps[0].1)] + PairLines(ps[1..])
  }

  function PrintPairs(ps: seq<Pair>): string {
    JoinLines(PairLines(ps))
  }

  lemma {:induction false} PairLinesSnoc(ps: seq<Pair>, p: Pair)
    ensures PairLines(ps + [p]) == PairLines(ps) + [p.0, Dec(p.1)]
  {
    if ps == [] {
      assert ps + [p] == [p];
    } else {
      assert (ps + [p])[1..] == ps[1..] + [p];
      PairLinesSnoc(ps[1..], p);
    }
  }

  lemma PrintPairsSnoc(ps: seq<Pair>, p: Pair)
    ensures PrintPairs(ps + [p]) == PrintPairs(ps) + (p.0 + "\n" + Dec(p.1) + "\n")
  {
    PairLinesSnoc(ps, p);
    JoinLinesAppend(PairLines(ps), [p.0, Dec(p.1)]);
    assert [p.0, Dec(p.1)][1..] == [Dec(p.1)];
    assert JoinLines([Dec(p.1)]) == Dec(p.1) + "\n" + "";
  }

  /** `stoull` on a line of a stored file; those lines are always numbers. */
  function Stoull(s: string): nat {
    if IsNumber(s) then ParseDec(s) else 0
  }

  /** The pairs the line-by-line readers recover: an odd line at the end is
      dropped (backend/chunk.h:52-60, 210-218). */
  function ParsePairs(lines: seq<string>): (ps: seq<Pair>) {
    if |lines| < 2 then [] else [(lines[0], Stoull(lines[1]))] + ParsePairs(lines[2..])
  }

  lemma {:induction false} SplitTable(ps: seq<Pair>)
    requires NamesOk(ps)
    ensures SplitLines(PrintPairs(ps)) == PairLines(ps)
  {
    PairLinesHaveNoNewline(ps);
    SplitJoined(PairLines(ps));
  }

  lemma {:induction false} PairLinesHaveNoNewline(ps: seq<Pair>)
    requires NamesOk(ps)
    ensures forall i :: 0 <= i < |PairLines(ps)| ==> NoNewline(PairLines(ps)[i])
  {
    if ps != [] {
      PairLinesHaveNoNewline(ps[1..]);
      DigitsHaveNoNewline(Dec(ps[0].1));
    }
  }

  lemma {:induction false} ParsePairLines(ps: seq<Pair>)
    ensures ParsePairs(PairLines(ps)) == ps
  {
    if ps != [] {
      ParsePairLines(ps[1..]);
      DecRoundTrip(ps[0].1);
      assert PairLines(ps)[2..] == PairLines(ps[1..]);
    }
  }

  /** A stored table reads back as the pairs that were written. */
  lemma TableRoundTrip(ps: seq<Pair>)
    requires NamesOk(ps)
    ensures ParsePairs(SplitLines(PrintPairs(ps))) == ps
  {
    SplitTable(ps);
    ParsePairLines(ps);
  }

  /** Later pairs overwrite earlier ones, as `metadata[key] = value` does. */
  function ToMap(ps: seq<Pair>): map<string, nat> {
    if ps == [] then map[] else ToMap(ps[..|ps| - 1])[ps[|ps| - 1].0 := ps[|ps| - 1].1]
  }

  lemma ToMapSnoc(ps: seq<Pair>, p: Pair)
    ensures ToMap(ps + [p]) == ToMap(ps)[p.0 := p.1]
  {
    assert (ps + [p])[..|ps|] == ps;
  }
}
