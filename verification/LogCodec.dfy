/** The text of the write-ahead log (backend/cache.h): a checkpoint line, then one
    entry an operation. Reading it back searches for headers with a regular
    expression and takes each value by its length, so a value may hold any bytes,
    even text that looks like a header. */
module LogCodec {
  import opened Text
  import opened Regex

  datatype LogEntry =
    | PutEntry(id: nat, user: string, key: string, value: string)
    | DeleEntry(id: nat, user: string, key: string)

  // ---- Writing (backend/cache.h:898-914, 311-313) ----

  function HeaderText(n: nat, user: string, key: string, op: string, length: nat): string {
    Spaced("KvStoreLogEntry", Spaced("Seq", Spaced(Dec(n), Spaced("user", Spaced(user, Spaced("key",
    Spaced(key, Spaced("op", Spaced(op, Spaced("length", Dec(length) + "\n"))))))))))
  }

  function Format(e: LogEntry): string {
    match e
    case PutEntry(n, user, key, value) => HeaderText(n, user, key, "Puts", |value|) + value + "\n"
    case DeleEntry(n, user, key) => HeaderText(n, user, key, "Dele", 0)
  }

  function CheckpointLine(id: nat): string {
    Spaced("KvStoreLogEntry", Spaced("Checkpointed", Spaced("at", Spaced("SequenceID:", Dec(id) + "\n"))))
  }

  function FormatAll(es: seq<LogEntry>): string {
    if es == [] then "" else Format(es[0]) + FormatAll(es[1..])
  }

  function FormatLog(id: nat, es: seq<LogEntry>): string {
    CheckpointLine(id) + FormatAll(es)
  }

  lemma {:induction false} FormatAllAppend(a: seq<LogEntry>, b: seq<LogEntry>)
    ensures FormatAll(a + b) == FormatAll(a) + FormatAll(b)
  {
    if a == [] {
      assert a + b == b;
    } else {
      assert (a + b)[1..] == a[1..] + b;
      FormatAllAppend(a[1..], b);
    }
  }

  /** Logging one more operation appends its text. */
  lemma FormatLogSnoc(id: nat, es: seq<LogEntry>, e: LogEntry)
    ensures FormatLog(id, es + [e]) == FormatLog(id, es) + Format(e)
  {
    FormatAllAppend(es, [e]);
    assert FormatAll([e]) == Format(e) + "";
  }

  // ---- Reading (backend/cache.h:22-27, 768-835, 984-1000) ----

  const LINE_END: Pattern := Lit("\n", End)

  const HEADER: Pattern :=
    Word("KvStoreLogEntry", Word("Seq", Field(Digits, Word("user", Field(NameChars,
    Word("key", Field(NameChars, Word("op", Field(Letters, Word("length", Run(Digits, 1, LINE_END)))))))))))

  const CHECKPOINT: Pattern :=
    Word("KvStoreLogEntry", Word("Checkpointed", Word("at", Word("SequenceID:", Run(Digits, 1, LINE_END)))))

  datatype CheckpointId = NoId | Id(id: nat) | IdThrows

  function ExtractCheckpointId(loggings: string): CheckpointId {
    match Search(CHECKPOINT, loggings)
    case None => NoId
    case Some(m) =>
      if |m.groups| == 1 && FitsInt(m.groups[0]) then Id(ParseDec(m.groups[0])) else IdThrows
  }

  /** One round of the replay loop: an operation, an operation of an unknown kind, or
      an uncaught exception. */
  datatype Item = Op(entry: LogEntry) | Unknown | Throws

  /** The items of the next round, and what is left unless an exception ended it. */
  datatype Round = Round(item: Item, rest: Option<string>)

  function NextRound(loggings: string): Option<Round> {
    match Search(HEADER, loggings)
    case None => None
    case Some(m) =>
      if |m.groups| != 5 || !FitsInt(m.groups[0]) || !FitsInt(m.groups[4]) then Some(Round(Throws, None))
      else
        var n, user, key, length := ParseDec(m.groups[0]), m.groups[1], m.groups[2], ParseDec(m.groups[4]);
        if m.groups[3] == "Puts" then
          var value := if length <= |m.rest| then m.rest[..length] else m.rest;
          // The entry is applied before `substr` throws on a value cut short.
          Some(Round(Op(PutEntry(n, user, key, value)),
                     if |value| + 1 <= |m.rest| then Some(m.rest[|value| + 1..]) else None))
        else if m.groups[3] == "Dele" then
          Some(Round(Op(DeleEntry(n, user, key)), Some(m.rest)))
        else
          Some(Round(Unknown, Some(m.rest)))
  }

  lemma {:induction false} MatchShrinks(p: Pattern, s: string)
    requires MatchHere(p, s).Some?
    ensures |MatchHere(p, s).value.rest| <= |s|
    ensures p.Lit? ==> |MatchHere(p, s).value.rest| <= |s| - |p.text|
    decreases p
  {
    match p
    case End =>
    case Lit(lit, next) => MatchShrinks(next, s[|lit|..]);
    case Space(next) => MatchShrinks(next, s[1..]);
    case One(cls, next) => MatchShrinks(next, s[1..]);
    case Run(cls, least, next) => MatchShrinks(next, s[Span(cls, s)..]);
  }

  lemma {:induction false} SearchShrinks(p: Pattern, s: string)
    requires p.Lit? && p.text != "" && Search(p, s).Some?
    ensures |Search(p, s).value.rest| < |s|
    decreases |s|
  {
    hide MatchHere;
    if MatchHere(p, s).Some? {
      MatchShrinks(p, s);
    } else {
      SearchShrinks(p, s[1..]);
    }
  }

  lemma RoundShrinks(loggings: string)
    requires NextRound(loggings).Some? && NextRound(loggings).value.rest.Some?
    ensures |NextRound(loggings).value.rest.value| < |loggings|
  {
    hide Search;
    SearchShrinks(HEADER, loggings);
  }

  /** Everything the replay loop meets in this text. */
  function Items(loggings: string): seq<Item>
    decreases |loggings|
  {
    match NextRound(loggings)
    case None => []
    case Some(round) =>
      [round.item] + match round.rest
                     case None => if round.item == Throws then [] else [Throws]
                     case Some(rest) => RoundShrinks(loggings); Items(rest)
  }

  // ---- Round trip ----

  predicate IsName(s: string) {
    s != "" && AllIn(NameChars, s)
  }

  /** The header can name the user and the key. */
  predicate Named(e: LogEntry) {
    IsName(e.user) && IsName(e.key)
  }

  predicate AllNamed(es: seq<LogEntry>) {
    forall i :: 0 <= i < |es| ==> Named(es[i])
  }

  /** The numbers of the entry are in the range of an int. */
  predicate EntryFits(e: LogEntry) {
    e.id <= INT_MAX && (e.PutEntry? ==> |e.value| <= INT_MAX)
  }

  predicate AllFit(es: seq<LogEntry>) {
    forall i :: 0 <= i < |es| ==> EntryFits(es[i])
  }

  lemma LineDenotes(n: nat)
    ensures Denotes(Run(Digits, 1, LINE_END), [Dec(n)], Dec(n) + "\n")
  {
    DigitsAreDigits(Dec(n));
    assert "\n"[1..] == "";
    LitStep("\n", End, [], "");
    assert "\n" + "" == "\n";
    RunStep(Digits, 1, LINE_END, Dec(n), [], "\n");
    assert [Dec(n)] + [] == [Dec(n)];
  }

  lemma HeaderDenotes(n: nat, user: string, key: string, op: string, length: nat)
    requires IsName(user) && IsName(key) && op != "" && AllIn(Letters, op)
    ensures Denotes(HEADER, [Dec(n), user, key, op, Dec(length)], HeaderText(n, user, key, op, length))
  {
    hide Denotes, AllIn, Dec;
    var p0, g0, t0 := Run(Digits, 1, LINE_END), [Dec(length)], Dec(length) + "\n";
    LineDenotes(length);
    WordStep("length", p0, g0, t0);
    var p1, t1 := Word("length", p0), Spaced("length", t0);
    FieldStep(Letters, p1, op, g0, t1);
    var p2, g2, t2 := Field(Letters, p1), [op] + g0, Spaced(op, t1);
    WordStep("op", p2, g2, t2);
    var p3, t3 := Word("op", p2), Spaced("op", t2);
    FieldStep(NameChars, p3, key, g2, t3);
    var p4, g4, t4 := Field(NameChars, p3), [key] + g2, Spaced(key, t3);
    WordStep("key", p4, g4, t4);
    var p5, t5 := Word("key", p4), Spaced("key", t4);
    FieldStep(NameChars, p5, user, g4, t5);
    var p6, g6, t6 := Field(NameChars, p5), [user] + g4, Spaced(user, t5);
    WordStep("user", p6, g6, t6);
    var p7, t7 := Word("user", p6), Spaced("user", t6);
    DigitsAreDigits(Dec(n));
    FieldStep(Digits, p7, Dec(n), g6, t7);
    var p8, g8, t8 := Field(Digits, p7), [Dec(n)] + g6, Spaced(Dec(n), t7);
    WordStep("Seq", p8, g8, t8);
    WordStep("KvStoreLogEntry", Word("Seq", p8), g8, Spaced("Seq", t8));
    assert g8 == [Dec(n), user, key, op, Dec(length)];
  }

  lemma CheckpointDenotes(id: nat)
    ensures Denotes(CHECKPOINT, [Dec(id)], CheckpointLine(id))
  {
    hide Denotes, Dec;
    var p0, g, t0 := Run(Digits, 1, LINE_END), [Dec(id)], Dec(id) + "\n";
    LineDenotes(id);
    WordStep("SequenceID:", p0, g, t0);
    var p1, t1 := Word("SequenceID:", p0), Spaced("SequenceID:", t0);
    WordStep("at", p1, g, t1);
    var p2, t2 := Word("at", p1), Spaced("at", t1);
    WordStep("Checkpointed", p2, g, t2);
    WordStep("KvStoreLogEntry", Word("Checkpointed", p2), g, Spaced("Checkpointed", t2));
  }

  // ---- The checkpoint line holds no header ----

  predicate FreeOf(c: char, s: string) {
    forall i :: 0 <= i < |s| ==> s[i] != c
  }

  lemma NoHeaderWithin(line: string, s: string, i: nat)
    requires 0 < i < |line| && FreeOf('K', line[1..])
    ensures MatchHere(HEADER, (line + s)[i..]).None?
  {
    assert line[1..][i - 1] == line[i];
    assert (line + s)[i..][0] == line[i] != "KvStoreLogEntry"[0];
  }

  /** The text after the first word of a log line decides which kind of line it is. */
  lemma NoHeaderAt(text: string)
    requires text != "" && text[0] == 'C'
    ensures MatchHere(HEADER, Spaced("KvStoreLogEntry", text)).None?
  {
    var s := Spaced("KvStoreLogEntry", text);
    assert s[15..] == " " + text;
    assert (" " + text)[1..] == text;
    assert HEADER == Lit("KvStoreLogEntry", Space(HEADER.next.next));
    assert HEADER.next.next.Lit? && HEADER.next.next.text == "Seq";
    assert "Seq"[0] != text[0];
  }

  lemma SpacedFree(c: char, word: string, text: string)
    requires FreeOf(c, word) && FreeOf(c, text) && c != ' '
    ensures FreeOf(c, Spaced(word, text))
  {
  }

  lemma SpacedRest(word: string, text: string)
    requires word != ""
    ensures Spaced(word, text)[1..] == Spaced(word[1..], text)
  {
  }

  lemma CheckpointLineFree(id: nat)
    ensures FreeOf('K', CheckpointLine(id)[1..])
  {
    var number := Dec(id) + "\n";
    assert FreeOf('K', number);
    hide Dec, Spaced;
    SpacedFree('K', "SequenceID:", number);
    SpacedFree('K', "at", Spaced("SequenceID:", number));
    SpacedFree('K', "Checkpointed", Spaced("at", Spaced("SequenceID:", number)));
    var tail := Spaced("Checkpointed", Spaced("at", Spaced("SequenceID:", number)));
    SpacedFree('K', "vStoreLogEntry", tail);
    assert "KvStoreLogEntry"[1..] == "vStoreLogEntry";
    SpacedRest("KvStoreLogEntry", tail);
  }

  lemma SearchPastCheckpoint(id: nat, s: string)
    ensures Search(HEADER, CheckpointLine(id) + s) == Search(HEADER, s)
  {
    var line := CheckpointLine(id);
    forall i | 0 <= i < |line| ensures MatchHere(HEADER, (line + s)[i..]).None? {
      if i == 0 {
        var tail := Spaced("Checkpointed", Spaced("at", Spaced("SequenceID:", Dec(id) + "\n")));
        NoHeaderAt(tail + s);
        assert (line + s)[0..] == Spaced("KvStoreLogEntry", tail + s);
      } else {
        CheckpointLineFree(id);
        NoHeaderWithin(line, s, i);
      }
    }
    SearchSkips(HEADER, line, s);
  }

  // ---- The round trip ----

  lemma NumberFits(n: nat)
    requires n <= INT_MAX
    ensures FitsInt(Dec(n)) && ParseDec(Dec(n)) == n
  {
    DecRoundTrip(n);
  }

  lemma FoundHeader(n: nat, user: string, key: string, op: string, length: nat, tail: string)
    requires IsName(user) && IsName(key) && op != "" && AllIn(Letters, op)
    ensures Search(HEADER, HeaderText(n, user, key, op, length) + tail) ==
            Some(Matched([Dec(n), user, key, op, Dec(length)], tail))
  {
    hide Denotes, MatchHere, HeaderText, Dec;
    HeaderDenotes(n, user, key, op, length);
    HeaderSeparated(tail);
    ScannerComplete(HEADER, [Dec(n), user, key, op, Dec(length)], HeaderText(n, user, key, op, length), tail);
  }

  lemma HeaderSeparated(tail: string)
    ensures Separated(HEADER) && Bounded(HEADER, tail)
    ensures Separated(CHECKPOINT) && Bounded(CHECKPOINT, tail)
  {
    var p0 := Run(Digits, 1, LINE_END);
    assert Separated(p0) && Bounded(p0, tail);
    var p1 := Word("op", Field(Letters, Word("length", p0)));
    WordSeparated("length", p0, tail);
    FieldSeparated(Letters, Word("length", p0), tail);
    WordSeparated("op", Field(Letters, Word("length", p0)), tail);
    var p2 := Word("key", Field(NameChars, p1));
    FieldSeparated(NameChars, p1, tail);
    WordSeparated("key", Field(NameChars, p1), tail);
    var p3 := Word("user", Field(NameChars, p2));
    FieldSeparated(NameChars, p2, tail);
    WordSeparated("user", Field(NameChars, p2), tail);
    FieldSeparated(Digits, p3, tail);
    WordSeparated("Seq", Field(Digits, p3), tail);
    WordSeparated("KvStoreLogEntry", Word("Seq", Field(Digits, p3)), tail);
    WordSeparated("SequenceID:", p0, tail);
    WordSeparated("at", Word("SequenceID:", p0), tail);
    WordSeparated("Checkpointed", Word("at", Word("SequenceID:", p0)), tail);
    WordSeparated("KvStoreLogEntry", Word("Checkpointed", Word("at", Word("SequenceID:", p0))), tail);
  }

  lemma WordSeparated(lit: string, p: Pattern, tail: string)
    requires Separated(p) && Bounded(p, tail)
    ensures Separated(Word(lit, p)) && Bounded(Word(lit, p), tail)
  {
  }

  lemma FieldSeparated(cls: CharClass, p: Pattern, tail: string)
    requires Separated(p) && Bounded(p, tail)
    ensures Separated(Field(cls, p)) && Bounded(Field(cls, p), tail)
  {
  }

  // ---- What a round can deliver ----

  lemma {:induction false} SearchSound(p: Pattern, s: string) returns (text: string)
    requires Search(p, s).Some?
    ensures Denotes(p, Search(p, s).value.groups, text)
    decreases |s|
  {
    hide MatchHere, Denotes;
    if MatchHere(p, s).Some? {
      text := ScannerSound(p, s);
    } else {
      text := SearchSound(p, s[1..]);
    }
  }

  lemma WordInverse(lit: string, p: Pattern, groups: seq<string>, text: string) returns (t: string)
    requires Denotes(Word(lit, p), groups, text)
    ensures Denotes(p, groups, t)
  {
    t := text[|lit|..][1..];
  }

  lemma FieldInverse(cls: CharClass, p: Pattern, groups: seq<string>, text: string) returns (t: string)
    requires Denotes(Field(cls, p), groups, text)
    ensures groups != [] && groups[0] != "" && AllIn(cls, groups[0]) && Denotes(p, groups[1..], t)
  {
    t := text[|groups[0]|..][1..];
  }

  lemma HeaderNames(groups: seq<string>, text: string)
    requires Denotes(HEADER, groups, text)
    ensures |groups| >= 3 && IsName(groups[1]) && IsName(groups[2])
  {
    hide Denotes, AllIn;
    var p1 := Word("op", Field(Letters, Word("length", Run(Digits, 1, LINE_END))));
    var p2 := Word("key", Field(NameChars, p1));
    var p3 := Word("user", Field(NameChars, p2));
    var t := WordInverse("KvStoreLogEntry", Word("Seq", Field(Digits, p3)), groups, text);
    t := WordInverse("Seq", Field(Digits, p3), groups, t);
    t := FieldInverse(Digits, p3, groups, t);
    t := WordInverse("user", Field(NameChars, p2), groups[1..], t);
    t := FieldInverse(NameChars, p2, groups[1..], t);
    t := WordInverse("key", Field(NameChars, p1), groups[1..][1..], t);
    t := FieldInverse(NameChars, p1, groups[1..][1..], t);
  }

  /** Whatever the log file contains, replay only ever names users and keys made of name
      characters. */
  lemma RoundNames(loggings: string)
    requires NextRound(loggings).Some? && NextRound(loggings).value.item.Op?
    ensures var e := NextRound(loggings).value.item.entry; IsName(e.user) && IsName(e.key)
  {
    hide Search, Denotes, IsName;
    var text := SearchSound(HEADER, loggings);
    HeaderNames(Search(HEADER, loggings).value.groups, text);
  }

  lemma NamesHaveNoNewline(s: string)
    requires AllIn(NameChars, s)
    ensures NoNewline(s)
  {
    assert !InClass(NameChars, '\n');
  }

  // ---- The round trip ----

  lemma NamedRound(e: LogEntry, tail: string)
    requires EntryFits(e) && Named(e)
    ensures NextRound(Format(e) + tail) == Some(Round(Op(e), Some(tail)))
  {
    hide Search, HeaderText, ParseDec, Dec;
    NumberFits(e.id);
    match e
    case PutEntry(n, user, key, value) =>
      NumberFits(|value|);
      var body := value + "\n" + tail;
      FoundHeader(n, user, key, "Puts", |value|, body);
      assert Format(e) + tail == HeaderText(n, user, key, "Puts", |value|) + body;
      assert body[..|value|] == value && body[|value| + 1..] == tail;
    case DeleEntry(n, user, key) =>
      NumberFits(0);
      FoundHeader(n, user, key, "Dele", 0, tail);
  }

  /** One round reads back exactly one written entry, whatever its value contains and
      whatever follows, if and only if user and key are names. */
  lemma RoundReadsEntry(e: LogEntry, tail: string)
    requires EntryFits(e)
    ensures NextRound(Format(e) + tail) == Some(Round(Op(e), Some(tail))) <==> Named(e)
  {
    hide NextRound, Format, IsName;
    if Named(e) {
      NamedRound(e, tail);
    } else if NextRound(Format(e) + tail) == Some(Round(Op(e), Some(tail))) {
      RoundNames(Format(e) + tail);
    }
  }

  function OpsOf(es: seq<LogEntry>): (items: seq<Item>)
    ensures |items| == |es| && forall i :: 0 <= i < |es| ==> items[i] == Op(es[i])
  {
    seq(|es|, i requires 0 <= i < |es| => Op(es[i]))
  }

  lemma NothingInEmptyText()
    ensures NextRound("").None?
  {
  }

  lemma SameRoundSameItems(a: string, b: string)
    requires Search(HEADER, a) == Search(HEADER, b)
    ensures Items(a) == Items(b)
  {
    assert NextRound(a) == NextRound(b);
  }

  lemma CheckpointFound(id: nat, tail: string)
    requires id <= INT_MAX
    ensures ExtractCheckpointId(CheckpointLine(id) + tail) == Id(id)
  {
    hide MatchHere, Denotes, CheckpointLine, ParseDec, Dec;
    CheckpointDenotes(id);
    HeaderSeparated(tail);
    ScannerComplete(CHECKPOINT, [Dec(id)], CheckpointLine(id), tail);
    NumberFits(id);
  }

  lemma CheckpointRoundTrip(id: nat, es: seq<LogEntry>)
    requires id <= INT_MAX
    ensures ExtractCheckpointId(FormatLog(id, es)) == Id(id)
  {
    hide ExtractCheckpointId, CheckpointLine, FormatAll;
    CheckpointFound(id, FormatAll(es));
  }

  lemma ItemsOfLog(id: nat, es: seq<LogEntry>)
    ensures Items(FormatLog(id, es)) == Items(FormatAll(es))
  {
    hide Items, Search, CheckpointLine, FormatAll;
    SearchPastCheckpoint(id, FormatAll(es));
    SameRoundSameItems(FormatLog(id, es), FormatAll(es));
  }

  /** Whatever text the log holds, every operation replay meets has names. */
  lemma {:induction false} ItemsAreNamed(loggings: string)
    ensures forall i :: 0 <= i < |Items(loggings)| && Items(loggings)[i].Op? ==> Named(Items(loggings)[i].entry)
    decreases |loggings|
  {
    hide NextRound, Named;
    if NextRound(loggings).Some? {
      if NextRound(loggings).value.item.Op? {
        RoundIsNamed(loggings);
      }
      if NextRound(loggings).value.rest.Some? {
        RoundShrinks(loggings);
        ItemsAreNamed(NextRound(loggings).value.rest.value);
      }
    }
  }

  lemma RoundIsNamed(loggings: string)
    requires NextRound(loggings).Some? && NextRound(loggings).value.item.Op?
    ensures Named(NextRound(loggings).value.item.entry)
  {
    hide NextRound, IsName;
    RoundNames(loggings);
  }

  // ---- Entries replay passes over ----

  /** No header begins within the entry, whatever follows it. */
  ghost predicate Silent(e: LogEntry) {
    forall tail: string, i :: 0 <= i < |Format(e)| ==> MatchHere(HEADER, (Format(e) + tail)[i..]).None?
  }

  /** The entries replay reads: those whose users and keys are names. */
  function NamedOf(es: seq<LogEntry>): seq<LogEntry> {
    if es == [] then [] else (if Named(es[0]) then [es[0]] else []) + NamedOf(es[1..])
  }

  ghost predicate Readable(es: seq<LogEntry>) {
    forall i :: 0 <= i < |es| ==> Named(es[i]) || Silent(es[i])
  }

  lemma SilentSkipped(e: LogEntry, tail: string)
    requires Silent(e)
    ensures Items(Format(e) + tail) == Items(tail)
  {
    hide MatchHere, Format;
    SearchSkips(HEADER, Format(e), tail);
    SameRoundSameItems(Format(e) + tail, tail);
  }

  /** Replay of written entries meets exactly the named ones, in order. */
  lemma {:induction false} ItemsOfEntries(es: seq<LogEntry>)
    requires AllFit(es) && Readable(es)
    ensures Items(FormatAll(es)) == OpsOf(NamedOf(es))
  {
    hide NextRound, Format, Named, Silent, EntryFits;
    if es == [] {
      NothingInEmptyText();
    } else {
      ItemsOfEntries(es[1..]);
      if Named(es[0]) {
        NamedRound(es[0], FormatAll(es[1..]));
        assert OpsOf(NamedOf(es)) == [Op(es[0])] + OpsOf(NamedOf(es[1..]));
      } else {
        SilentSkipped(es[0], FormatAll(es[1..]));
        assert NamedOf(es) == NamedOf(es[1..]);
      }
    }
  }

  lemma {:induction false} AllAreNamed(es: seq<LogEntry>)
    ensures NamedOf(es) == es <==> AllNamed(es)
    ensures |NamedOf(es)| <= |es| && (|NamedOf(es)| == |es| <==> AllNamed(es))
  {
    hide Named;
    if es != [] {
      AllAreNamed(es[1..]);
      assert AllNamed(es) <==> Named(es[0]) && AllNamed(es[1..]) by {
        assert es == [es[0]] + es[1..];
      }
      assert es == [es[0]] + es[1..];
    }
  }

  lemma ReadBackNamed(loggings: string, es: seq<LogEntry>)
    requires Items(loggings) == OpsOf(es)
    ensures AllNamed(es)
  {
    hide Items, Named;
    ItemsAreNamed(loggings);
    assert forall i :: 0 <= i < |es| ==> OpsOf(es)[i] == Op(es[i]);
  }

  /** The codec's main result: a log file written entry by entry gives back its checkpoint
      id, and it reads back as exactly those entries if and only if all users and keys are
      names. */
  lemma LogRoundTrip(id: nat, es: seq<LogEntry>)
    requires id <= INT_MAX && AllFit(es)
    ensures ExtractCheckpointId(FormatLog(id, es)) == Id(id)
    ensures Items(FormatLog(id, es)) == OpsOf(es) <==> AllNamed(es)
  {
    hide Items, ExtractCheckpointId, FormatLog, FormatAll, Named, Silent;
    CheckpointRoundTrip(id, es);
    ItemsOfLog(id, es);
    if AllNamed(es) {
      ItemsOfEntries(es);
      AllAreNamed(es);
    } else if Items(FormatLog(id, es)) == OpsOf(es) {
      ReadBackNamed(FormatLog(id, es), es);
    }
  }

  // ---- Which entries are passed over ----

  const FIRST_WORD: string := "KvStoreLogEntry"

  /** The text holds the first word of a header. */
  ghost predicate HasFirstWord(s: string) {
    exists i :: 0 <= i <= |s| && FIRST_WORD <= s[i..]
  }

  /** What the front end makes of its users, and the system of its keys: no blanks, and
      nowhere the first word of a header. */
  ghost predicate Headerless(e: LogEntry) {
    && NoSpaces(e.user) && NoSpaces(e.key) && !HasFirstWord(e.user) && !HasFirstWord(e.key)
    && (e.PutEntry? ==> !HasFirstWord(e.value))
  }

  lemma FirstWordHas(c: char)
    requires c == ' ' || c == '\n'
    ensures FreeOf(c, FIRST_WORD) && |FIRST_WORD| == 15
  {
  }

  /** A separator that is not in the first word keeps its parts apart. */
  lemma JoinQuiet(a: string, c: char, b: string)
    requires !HasFirstWord(a) && !HasFirstWord(b) && (c == ' ' || c == '\n')
    ensures !HasFirstWord(a + [c] + b)
  {
    FirstWordHas(c);
    var s := a + [c] + b;
    forall i | 0 <= i <= |s| ensures !(FIRST_WORD <= s[i..]) {
      if FIRST_WORD <= s[i..] {
        if i + 15 <= |a| {
          WordWithin(s, a, 0, i);
        } else if i > |a| {
          WordWithin(s, b, |a| + 1, i - |a| - 1);
        }
      }
      if i <= |a| < i + 15 {
        NotAcross(s, i, |a|);
      }
    }
  }

  lemma NotAcross(s: string, i: nat, j: nat)
    requires i <= j < i + 15 && j < |s| && FreeOf(s[j], FIRST_WORD) && |FIRST_WORD| == 15
    ensures !(FIRST_WORD <= s[i..])
  {
    if |s[i..]| >= 15 {
      assert s[i..][j - i] == s[j] != FIRST_WORD[j - i];
    }
  }

  lemma WordWithin(s: string, part: string, at: nat, i: nat)
    requires at + |part| <= |s| && s[at..at + |part|] == part && at + i <= |s| && i + 15 <= |part|
    requires FIRST_WORD <= s[at + i..] && |FIRST_WORD| == 15
    ensures HasFirstWord(part)
  {
    assert part[i..][..15] == s[at + i..][..15];
    assert FIRST_WORD <= part[i..];
  }

  lemma ShortQuiet(s: string)
    requires |s| < 15
    ensures !HasFirstWord(s)
  {
    FirstWordHas(' ');
  }

  lemma NumberQuiet(n: nat)
    ensures !HasFirstWord(Dec(n))
  {
    var d := Dec(n);
    forall i | 0 <= i <= |d| ensures !(FIRST_WORD <= d[i..]) {
      assert FIRST_WORD[0] == 'K' && !IsDigit('K');
      assert i < |d| ==> d[i..][0] == d[i];
    }
  }

  lemma SpacedQuiet(word: string, text: string)
    requires !HasFirstWord(word) && !HasFirstWord(text)
    ensures !HasFirstWord(Spaced(word, text))
  {
    JoinQuiet(word, ' ', text);
  }

  /** A header behind its first character, with what follows the number of the entry's
      bytes. */
  function HeaderRest(n: nat, user: string, key: string, op: string, end: string): string {
    Spaced("vStoreLogEntry", Spaced("Seq", Spaced(Dec(n), Spaced("user", Spaced(user, Spaced("key",
    Spaced(key, Spaced("op", Spaced(op, Spaced("length", end))))))))))
  }

  lemma HeaderRestQuiet(n: nat, user: string, key: string, op: string, end: string)
    requires !HasFirstWord(user) && !HasFirstWord(key) && |op| < 15 && !HasFirstWord(end)
    ensures !HasFirstWord(HeaderRest(n, user, key, op, end))
  {
    hide HasFirstWord, Dec, Spaced;
    NumberQuiet(n);
    ShortQuiet("vStoreLogEntry");
    ShortQuiet("Seq");
    ShortQuiet("user");
    ShortQuiet("key");
    ShortQuiet("op");
    ShortQuiet(op);
    ShortQuiet("length");
    var a := Spaced("length", end);
    SpacedQuiet("length", end);
    SpacedQuiet(op, a);
    SpacedQuiet("op", Spaced(op, a));
    var b := Spaced("op", Spaced(op, a));
    SpacedQuiet(key, b);
    SpacedQuiet("key", Spaced(key, b));
    var c := Spaced("key", Spaced(key, b));
    SpacedQuiet(user, c);
    SpacedQuiet("user", Spaced(user, c));
    var d := Spaced("user", Spaced(user, c));
    SpacedQuiet(Dec(n), d);
    SpacedQuiet("Seq", Spaced(Dec(n), d));
    SpacedQuiet("vStoreLogEntry", Spaced("Seq", Spaced(Dec(n), d)));
  }

  lemma SpacedPlus(word: string, text: string, more: string)
    ensures Spaced(word, text) + more == Spaced(word, text + more)
  {
  }

  /** A header with the text that follows it. */
  function HeaderWith(n: nat, user: string, key: string, op: string, end: string): string {
    Spaced(FIRST_WORD, Spaced("Seq", Spaced(Dec(n), Spaced("user", Spaced(user, Spaced("key",
    Spaced(key, Spaced("op", Spaced(op, Spaced("length", end))))))))))
  }

  lemma HeaderWithPlus(n: nat, user: string, key: string, op: string, end: string, more: string)
    ensures HeaderWith(n, user, key, op, end) + more == HeaderWith(n, user, key, op, end + more)
  {
    hide Dec, Spaced;
    SpacedPlus("length", end, more);
    var a := Spaced("length", end);
    SpacedPlus(op, a, more);
    SpacedPlus("op", Spaced(op, a), more);
    var b := Spaced("op", Spaced(op, a));
    SpacedPlus(key, b, more);
    SpacedPlus("key", Spaced(key, b), more);
    var c := Spaced("key", Spaced(key, b));
    SpacedPlus(user, c, more);
    SpacedPlus("user", Spaced(user, c), more);
    var d := Spaced("user", Spaced(user, c));
    SpacedPlus(Dec(n), d, more);
    SpacedPlus("Seq", Spaced(Dec(n), d), more);
    SpacedPlus(FIRST_WORD, Spaced("Seq", Spaced(Dec(n), d)), more);
  }

  lemma HeaderPlus(n: nat, user: string, key: string, op: string, length: nat, more: string)
    ensures HeaderText(n, user, key, op, length) + more == HeaderWith(n, user, key, op, Dec(length) + "\n" + more)
  {
    assert HeaderText(n, user, key, op, length) == HeaderWith(n, user, key, op, Dec(length) + "\n");
    hide Dec, HeaderText, HeaderWith;
    HeaderWithPlus(n, user, key, op, Dec(length) + "\n", more);
  }

  lemma HeaderWithRest(n: nat, user: string, key: string, op: string, end: string)
    ensures HeaderWith(n, user, key, op, end)[1..] == HeaderRest(n, user, key, op, end)
  {
    hide Spaced, Dec;
    assert FIRST_WORD[1..] == "vStoreLogEntry";
    SpacedRest(FIRST_WORD, Spaced("Seq", Spaced(Dec(n), Spaced("user", Spaced(user, Spaced("key",
      Spaced(key, Spaced("op", Spaced(op, Spaced("length", end))))))))));
  }

  function OpName(e: LogEntry): string {
    if e.PutEntry? then "Puts" else "Dele"
  }

  function Body(e: LogEntry): string {
    match e
    case PutEntry(_, _, _, value) => Dec(|value|) + "\n" + (value + "\n")
    case DeleEntry(_, _, _) => Dec(0) + "\n"
  }

  lemma FormatIs(e: LogEntry, tail: string)
    ensures Format(e) + tail == HeaderWith(e.id, e.user, e.key, OpName(e), Body(e) + tail)
  {
    hide HeaderText, HeaderWith, Dec;
    match e
    case PutEntry(n, user, key, value) =>
      HeaderPlus(n, user, key, "Puts", |value|, value + "\n" + tail);
      assert Dec(|value|) + "\n" + (value + "\n" + tail) == Body(e) + tail;
      assert Format(e) + tail == HeaderText(n, user, key, "Puts", |value|) + (value + "\n" + tail);
    case DeleEntry(n, user, key) =>
      HeaderPlus(n, user, key, "Dele", 0, tail);
  }

  lemma BodyQuiet(e: LogEntry)
    requires e.PutEntry? ==> !HasFirstWord(e.value)
    ensures !HasFirstWord(Body(e))
  {
    hide HasFirstWord, Dec;
    ShortQuiet("");
    match e
    case PutEntry(_, _, _, value) =>
      NumberQuiet(|value|);
      JoinQuiet(value, '\n', "");
      assert value + ['\n'] + "" == value + "\n";
      JoinQuiet(Dec(|value|), '\n', value + "\n");
    case DeleEntry(_, _, _) =>
      NumberQuiet(0);
      JoinQuiet(Dec(0), '\n', "");
      assert Dec(0) + ['\n'] + "" == Dec(0) + "\n";
  }

  lemma FormatEnds(e: LogEntry)
    ensures Format(e) != "" && Format(e)[|Format(e)| - 1] == '\n'
    ensures Format(e) == HeaderWith(e.id, e.user, e.key, OpName(e), Body(e))
  {
    hide Format, HeaderWith, Dec;
    FormatIs(e, "");
    assert Format(e) + "" == Format(e) && Body(e) + "" == Body(e);
    var front := Body(e)[..|Body(e)| - 1];
    assert Body(e) == front + "\n";
    HeaderWithPlus(e.id, e.user, e.key, OpName(e), front, "\n");
  }

  lemma FormatQuiet(e: LogEntry)
    requires Headerless(e)
    ensures Format(e) != "" && !HasFirstWord(Format(e)[1..]) && Format(e)[|Format(e)| - 1] == '\n'
  {
    hide HasFirstWord, HeaderRest, HeaderWith, Format, Body, NoSpaces;
    FormatEnds(e);
    HeaderWithRest(e.id, e.user, e.key, OpName(e), Body(e));
    BodyQuiet(e);
    HeaderRestQuiet(e.id, e.user, e.key, OpName(e), Body(e));
  }

  /** No header begins behind the first character of such a text. */
  lemma QuietPrefix(f: string, tail: string, i: nat)
    requires 0 < i < |f| && !HasFirstWord(f[1..]) && f[|f| - 1] == '\n'
    ensures MatchHere(HEADER, (f + tail)[i..]).None?
  {
    FirstWordHas('\n');
    var s := f + tail;
    if FIRST_WORD <= s[i..] {
      if i + 15 <= |f| {
        WordWithin(s, f[1..], 1, i - 1);
      }
    }
    if |f| - 1 < i + 15 {
      assert s[|f| - 1] == f[|f| - 1];
      NotAcross(s, i, |f| - 1);
    }
  }

  // ---- The header of an entry whose user or key is not a name ----

  lemma NoHeaderAtStart(e: LogEntry, tail: string)
    requires NoSpaces(e.user) && NoSpaces(e.key) && !Named(e)
    ensures MatchHere(HEADER, Format(e) + tail).None?
  {
    FormatIs(e, tail);
    NoDigitSpaces(e.id);
    hide MatchHere, Format, AllIn, Dec, Spaced, HasFirstWord, NoSpaces;
    var afterKey := Word("op", Field(Letters, Word("length", Run(Digits, 1, LINE_END))));
    var a := Spaced("op", Spaced(OpName(e), Spaced("length", Body(e) + tail)));
    var k, b := Word("key", Field(NameChars, afterKey)), Spaced("key", Spaced(e.key, a));
    if !IsName(e.key) {
      FieldFails(NameChars, afterKey, e.key, a);
      WordFails("key", Field(NameChars, afterKey), Spaced(e.key, a));
    }
    FieldFails(NameChars, k, e.user, b);
    var u, c := Field(NameChars, k), Spaced(e.user, b);
    WordFails("user", u, c);
    FieldFails(Digits, Word("user", u), Dec(e.id), Spaced("user", c));
    var d := Spaced(Dec(e.id), Spaced("user", c));
    WordFails("Seq", Field(Digits, Word("user", u)), d);
    WordFails(FIRST_WORD, Word("Seq", Field(Digits, Word("user", u))), Spaced("Seq", d));
  }

  lemma NoDigitSpaces(n: nat)
    ensures NoSpaces(Dec(n))
  {
  }

  /** Such an entry whose user or key is not a name is passed over by replay. */
  lemma HeaderlessIsSilent(e: LogEntry)
    requires Headerless(e) && !Named(e)
    ensures Silent(e)
  {
    hide MatchHere, Format, Named, NoSpaces, HasFirstWord;
    forall tail: string, i | 0 <= i < |Format(e)| ensures MatchHere(HEADER, (Format(e) + tail)[i..]).None? {
      if i == 0 {
        NoHeaderAtStart(e, tail);
        assert (Format(e) + tail)[0..] == Format(e) + tail;
      } else {
        FormatQuiet(e);
        QuietPrefix(Format(e), tail, i);
      }
    }
  }

  // ---- Values that hold headers ----

  lemma HeaderQuiet(n: nat, user: string, key: string, op: string, length: nat)
    requires !HasFirstWord(user) && !HasFirstWord(key) && |op| < 15
    ensures var f := HeaderText(n, user, key, op, length);
            f != "" && !HasFirstWord(f[1..]) && f[|f| - 1] == '\n'
  {
    var end := Dec(length) + "\n";
    assert HeaderText(n, user, key, op, length) == HeaderWith(n, user, key, op, end);
    hide HasFirstWord, HeaderRest, HeaderWith, HeaderText, Dec;
    NumberQuiet(length);
    ShortQuiet("");
    JoinQuiet(Dec(length), '\n', "");
    assert Dec(length) + ['\n'] + "" == end;
    HeaderWithRest(n, user, key, op, end);
    HeaderRestQuiet(n, user, key, op, end);
    HeaderWithPlus(n, user, key, op, Dec(length), "\n");
  }

  /** Replay passes over the header of an entry whose user or key is not a name, and takes
      its value for log text. */
  lemma ValueIsReplayed(n: nat, user: string, key: string, value: string, tail: string)
    requires NoSpaces(user) && NoSpaces(key) && !HasFirstWord(user) && !HasFirstWord(key)
    requires !IsName(user) || !IsName(key)
    ensures Items(Format(PutEntry(n, user, key, value)) + tail) == Items(value + "\n" + tail)
  {
    hide MatchHere, HeaderText, HasFirstWord, NoSpaces, IsName;
    var e := PutEntry(n, user, key, value);
    var before, after := HeaderText(n, user, key, "Puts", |value|), value + "\n" + tail;
    assert Format(e) + tail == before + after;
    HeaderQuiet(n, user, key, "Puts", |value|);
    forall i | 0 <= i < |before| ensures MatchHere(HEADER, (before + after)[i..]).None? {
      if i == 0 {
        NoHeaderAtStart(e, tail);
        assert (before + after)[0..] == Format(e) + tail;
      } else {
        QuietPrefix(before, after, i);
      }
    }
    SearchSkips(HEADER, before, after);
    SameRoundSameItems(before + after, after);
  }

  /** A header takes as many bytes for its value as it says, whatever they are. */
  lemma HeaderSpans(n: nat, user: string, key: string, length: nat, rest: string)
    requires n <= INT_MAX && length <= INT_MAX && IsName(user) && IsName(key) && length < |rest|
    ensures NextRound(HeaderText(n, user, key, "Puts", length) + rest) ==
            Some(Round(Op(PutEntry(n, user, key, rest[..length])), Some(rest[length + 1..])))
  {
    hide Search, HeaderText, ParseDec, Dec;
    NumberFits(n);
    NumberFits(length);
    FoundHeader(n, user, key, "Puts", length, rest);
  }
}
