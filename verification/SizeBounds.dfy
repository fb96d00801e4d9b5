/** How large the records can be that a node has pending or in its log. Together with the
    bound that every batch keeps, this bounds the chunk files in every run. */
module SizeBounds {
  import opened Text
  import opened Status
  import opened Records
  import opened ChunkFolder
  import opened ChunkStore
  import opened Regex
  import opened LogCodec
  import opened KvModel
  import opened History
  import opened KvCaches

  /** The record of a non-empty value is at most `slack` bytes long. */
  predicate Fits(key: string, value: string, slack: nat) {
    value != "" ==> |Encode(Record(key, value))| <= slack
  }

  predicate CommandFits(c: Command, slack: nat) {
    match c
    case PutsCmd(_, key, value) => Fits(key, value, slack)
    case CputCmd(_, key, _, value2) => Fits(key, value2, slack)
    case _ => true
  }

  // ---- Pending updates ----

  lemma TouchFits(t: Table, user: string, slack: nat)
    requires UpdatesFit(t, slack)
    ensures UpdatesFit(Touch(t, user), slack)
  {
  }

  lemma WriteFits(s: State, user: string, key: string, value: string, slack: nat)
    requires UpdatesFit(s.updatesCache, slack) && Fits(key, value, slack)
    ensures UpdatesFit(WriteCell(s, user, key, value).updatesCache, slack)
  {
  }

  lemma GetsFits(s: State, user: string, key: string, slack: nat)
    requires UpdatesFit(s.updatesCache, slack)
    ensures UpdatesFit(Gets(s, user, key).0.updatesCache, slack)
  {
    TouchFits(s.updatesCache, user, slack);
    hide UpdatesFit;
  }

  /** No command makes a larger record pending than its own. */
  lemma StepFits(s: State, c: Command, slack: nat)
    requires UpdatesFit(s.updatesCache, slack) && CommandFits(c, slack)
    ensures UpdatesFit(Step(s, c).0.updatesCache, slack)
  {
    hide UpdatesFit, Gets, WriteCell, Format, CheckpointedDisk, Fits;
    match c
    case PutsCmd(u, k, v) =>
      WriteAnyFits(s, u, k, v, slack);
    case CputCmd(u, k, v1, v2) =>
      GetsFits(s, u, k, slack);
      var n := s.maxSequence + 1;
      var t := WithHome(Gets(s, u, k).0, u, k, v1).(maxSequence := n);
      GetsFits(t.(sequenceId := n), u, k, slack);
      var looked := Gets(t.(sequenceId := n), u, k).0;
      WriteAnyFits(looked, u, k, v2, slack);
      assert Logged(looked, Format(PutEntry(n, u, k, v2))).updatesCache == looked.updatesCache;
    case GetsCmd(u, k) => GetsFits(s, u, k, slack);
    case DeleCmd(u, k) =>
      EmptyFits(k, slack);
      WriteAnyFits(s, u, k, "", slack);
    case CkptCmd =>
    case AllCmd(u) => TouchFits(s.updatesCache, u, slack);
  }

  lemma EmptyFits(key: string, slack: nat)
    ensures Fits(key, "", slack)
  {
  }

  lemma WriteAnyFits(s: State, user: string, key: string, value: string, slack: nat)
    requires UpdatesFit(s.updatesCache, slack) && Fits(key, value, slack)
    ensures forall t: State :: t.updatesCache == s.updatesCache ==>
              UpdatesFit(WriteCell(t, user, key, value).updatesCache, slack)
  {
    hide UpdatesFit, Fits, WriteCell;
    forall t: State | t.updatesCache == s.updatesCache
      ensures UpdatesFit(WriteCell(t, user, key, value).updatesCache, slack)
    {
      WriteFits(t, user, key, value, slack);
    }
  }

  // ---- The log ----

  predicate ItemFits(item: Item, slack: nat) {
    item.Op? && item.entry.PutEntry? ==> Fits(item.entry.key, item.entry.value, slack)
  }

  /** An entry that replay reads as it was written or passes over. */
  ghost predicate EntryBounded(e: LogEntry, slack: nat) {
    (Named(e) || Headerless(e)) && (e.PutEntry? ==> Fits(e.key, e.value, slack))
  }

  ghost predicate EntriesBounded(es: seq<LogEntry>, slack: nat) {
    forall i :: 0 <= i < |es| ==> EntryBounded(es[i], slack)
  }

  /** A log starts with a checkpoint line, or with nothing when no checkpoint or first
      start preceded it. */
  ghost predicate LogBounded(log: Option<string>, slack: nat) {
    log.Some? ==>
      exists es :: EntriesBounded(es, slack) &&
        (log.value == FormatAll(es) || exists id :: log.value == FormatLog(id, es))
  }

  lemma TooLargeThrows(e: LogEntry, tail: string)
    requires Named(e) && !EntryFits(e)
    ensures NextRound(Format(e) + tail) == Some(Round(Throws, None))
  {
    hide Search, HeaderText, ParseDec, Dec;
    DecRoundTrip(e.id);
    match e
    case PutEntry(n, user, key, value) =>
      DecRoundTrip(|value|);
      var body := value + "\n" + tail;
      FoundHeader(n, user, key, "Puts", |value|, body);
      assert Format(e) + tail == HeaderText(n, user, key, "Puts", |value|) + body;
    case DeleEntry(n, user, key) =>
      FoundHeader(n, user, key, "Dele", 0, tail);
  }

  lemma {:induction false} ItemsFit(es: seq<LogEntry>, slack: nat)
    requires EntriesBounded(es, slack)
    ensures forall i :: 0 <= i < |Items(FormatAll(es))| ==> ItemFits(Items(FormatAll(es))[i], slack)
  {
    hide NextRound, Format, Named, EntryFits, Headerless, Fits;
    if es == [] {
      NothingInEmptyText();
    } else {
      ItemsFit(es[1..], slack);
      assert EntryBounded(es[0], slack);
      var tail := FormatAll(es[1..]);
      if !Named(es[0]) {
        HeaderlessIsSilent(es[0]);
        SilentSkipped(es[0], tail);
      } else if EntryFits(es[0]) {
        NamedRound(es[0], tail);
      } else {
        TooLargeThrows(es[0], tail);
      }
    }
  }

  lemma LogItemsFit(loggings: string, slack: nat)
    requires LogBounded(Some(loggings), slack)
    ensures forall i :: 0 <= i < |Items(loggings)| ==> ItemFits(Items(loggings)[i], slack)
  {
    hide Items, FormatAll, FormatLog, EntriesBounded, ItemFits;
    var es :| EntriesBounded(es, slack) && (loggings == FormatAll(es) || exists id :: loggings == FormatLog(id, es));
    ItemsFit(es, slack);
    if loggings != FormatAll(es) {
      var id :| loggings == FormatLog(id, es);
      ItemsOfLog(id, es);
    }
  }

  lemma {:induction false} ReplayItemsFit(s: State, items: seq<Item>, slack: nat)
    requires UpdatesFit(s.updatesCache, slack)
    requires forall i :: 0 <= i < |items| ==> ItemFits(items[i], slack)
    ensures UpdatesFit(ReplayItems(s, items).0.updatesCache, slack)
  {
    hide UpdatesFit, WriteCell, Logged, Fits;
    if items != [] {
      var front, last := items[..|items| - 1], items[|items| - 1];
      ReplayItemsFit(s, front, slack);
      var t := ReplayItems(s, front).0;
      assert ItemFits(last, slack);
      match last
      case Op(PutEntry(n, u, k, v)) => WriteAnyFits(t, u, k, v, slack);
      case Op(DeleEntry(n, u, k)) =>
        EmptyFits(k, slack);
        WriteAnyFits(t, u, k, "", slack);
      case _ =>
    }
  }

  /** Replay makes nothing pending that is larger than what was logged. */
  lemma ReplayFits(s: State, slack: nat)
    requires UpdatesFit(s.updatesCache, slack) && LogBounded(s.log, slack)
    ensures UpdatesFit(ReplayLoggings(s).0.updatesCache, slack)
  {
    hide Items, ReplayItems, ExtractCheckpointId, LogBounded, ItemFits;
    if s.log.Some? && ExtractCheckpointId(s.log.value).Id? {
      LogItemsFit(s.log.value, slack);
      var cleared := s.(sequenceId := ExtractCheckpointId(s.log.value).id, readCache := map[], updatesCache := map[]);
      ReplayItemsFit(cleared, Items(s.log.value), slack);
    }
  }

  ghost predicate CommandReadable(c: Command) {
    match c
    case PutsCmd(u, k, v) => Named(PutEntry(0, u, k, v)) || Headerless(PutEntry(0, u, k, v))
    case CputCmd(u, k, _, v2) => Named(PutEntry(0, u, k, v2)) || Headerless(PutEntry(0, u, k, v2))
    case DeleCmd(u, k) => Named(DeleEntry(0, u, k)) || Headerless(DeleEntry(0, u, k))
    case _ => true
  }

  /** Why the bound needs that condition: the value of "a*b" ends in a header that claims
      the entries behind it. The records of both commands are within the bound, and after a
      restart a larger one is pending. */
  lemma ForgedLengthSpansEntries(v: string, w: string, length: nat, slack: nat)
    requires v + "\n" == HeaderText(1, "u", "k", "Puts", length) && |v| <= INT_MAX && |w| <= INT_MAX
    requires slack < length <= INT_MAX && length + 1 == |Format(PutEntry(2, "u", "k", w))|
    requires CommandFits(PutsCmd("a*b", "k", v), slack) && CommandFits(PutsCmd("u", "k", w), slack)
    ensures var s := Step(Step(InitCacheForPrimary(FRESH).0, PutsCmd("a*b", "k", v)).0, PutsCmd("u", "k", w)).0;
            var (t, status) := ReplayLoggings(s);
            UpdatesFit(s.updatesCache, slack) && status == Finished && !UpdatesFit(t.updatesCache, slack)
  {
    hide Step, Persisted, Items, InitCacheForPrimary, Format, Running, ExtractCheckpointId, FormatLog, ReplayItems,
      WriteCell,
      UpdatesFit, CommandFits, HeaderText, After;
    var s0, e1, e2 := InitCacheForPrimary(FRESH).0, Wrote("a*b", "k", v), Wrote("u", "k", w);
    var s1 := Step(s0, PutsCmd("a*b", "k", v)).0;
    var s, h := Step(s1, PutsCmd("u", "k", w)).0, [e1, e2];
    FirstStart(FRESH);
    assert [] + [e1] == [e1] && [e1] + [e2] == h;
    StepExtendsHistory(s0, PutsCmd("a*b", "k", v), [], 0, 0);
    StepExtendsHistory(s1, PutsCmd("u", "k", w), [e1], 0, 0);
    NothingPending(slack);
    StepFits(s0, PutsCmd("a*b", "k", v), slack);
    StepFits(s1, PutsCmd("u", "k", w), slack);
    LoggedFrom(s, h, 0, 0);
    ForgedItems(s, v, w, length);
    var big := Format(PutEntry(2, "u", "k", w))[..length];
    var cleared := s.(sequenceId := 0, readCache := map[], updatesCache := map[]);
    OneOperation(cleared, PutEntry(1, "u", "k", big));
    var t := WriteCell(cleared.(sequenceId := 1), "u", "k", big);
    assert ReplayLoggings(s) == (t.(maxSequence := t.sequenceId), Finished);
    LargePending(cleared.(sequenceId := 1), "u", "k", big, slack);
  }

  lemma NothingPending(slack: nat)
    ensures UpdatesFit(InitCacheForPrimary(FRESH).0.updatesCache, slack)
  {
  }

  lemma LargePending(s: State, user: string, key: string, value: string, slack: nat)
    requires |value| > slack
    ensures !UpdatesFit(WriteCell(s, user, key, value).updatesCache, slack)
  {
    var updates := WriteCell(s, user, key, value).updatesCache;
    assert user in updates && updates[user][key] == value;
    assert |Encode(Record(key, value))| > slack;
  }

  lemma ForgedItems(s: State, v: string, w: string, length: nat)
    requires v + "\n" == HeaderText(1, "u", "k", "Puts", length) && |v| <= INT_MAX && |w| <= INT_MAX
    requires length <= INT_MAX && length + 1 == |Format(PutEntry(2, "u", "k", w))|
    requires Persisted(s, [Wrote("a*b", "k", v), Wrote("u", "k", w)], 0, 0)
    ensures Items(s.log.value) == [Op(PutEntry(1, "u", "k", Format(PutEntry(2, "u", "k", w))[..length]))]
  {
    hide Items, FormatLog, Format, IsName, HasFirstWord, After, NextRound, NoSpaces, HeaderText, EntriesFrom;
    var d1, d2 := PutEntry(1, "a*b", "k", v), PutEntry(2, "u", "k", w);
    var h := [Wrote("a*b", "k", v), Wrote("u", "k", w)];
    StarNames();
    TwoEntries(h);
    ItemsOfLog(0, [d1, d2]);
    TwoTexts(d1, d2);
    ValueIsReplayed(1, "a*b", "k", v, Format(d2));
    HeaderSpans(1, "u", "k", length, Format(d2));
    assert Format(d2)[length + 1..] == "";
    LastItem(HeaderText(1, "u", "k", "Puts", length) + Format(d2), PutEntry(1, "u", "k", Format(d2)[..length]));
  }

  lemma TwoEntries(h: seq<Effect>)
    requires |h| == 2 && h[0].Wrote? && h[1].Wrote?
    ensures EntriesFrom(h, 0) ==
            [PutEntry(1, h[0].user, h[0].key, h[0].value), PutEntry(2, h[1].user, h[1].key, h[1].value)]
  {
    EntriesSnoc([], h[0], 0);
    EntriesSnoc([h[0]], h[1], 0);
    assert [] + [h[0]] == [h[0]] && [h[0]] + [h[1]] == h;
  }

  lemma TwoTexts(d1: LogEntry, d2: LogEntry)
    ensures FormatAll([d1, d2]) == Format(d1) + Format(d2)
  {
    hide Format;
    OneEntry(d2);
    assert [d1, d2][1..] == [d2];
  }

  lemma LastItem(text: string, e: LogEntry)
    requires NextRound(text) == Some(Round(Op(e), Some("")))
    ensures Items(text) == [Op(e)]
  {
    hide NextRound;
    NothingInEmptyText();
  }

  lemma LogGrows(log: Option<string>, e: LogEntry, slack: nat)
    requires LogBounded(log, slack) && EntryBounded(e, slack)
    ensures LogBounded(Some((if log.Some? then log.value else "") + Format(e)), slack)
  {
    hide Format, EntryBounded, FormatAll;
    var text := if log.Some? then log.value else "";
    ghost var es: seq<LogEntry> := [];
    if log.Some? {
      es :| EntriesBounded(es, slack) && (text == FormatAll(es) || exists id :: text == FormatLog(id, es));
    } else {
      NoEntriesText();
    }
    FormatAllAppend(es, [e]);
    OneEntry(e);
    assert EntriesBounded(es + [e], slack);
    if text != FormatAll(es) {
      var id :| text == FormatLog(id, es);
      FormatLogSnoc(id, es, e);
    }
  }

  lemma NoEntriesText()
    ensures FormatAll([]) == ""
  {
  }

  lemma OneEntry(e: LogEntry)
    ensures FormatAll([e]) == Format(e)
  {
    assert FormatAll([e]) == Format(e) + "";
  }

  lemma CheckpointBounded(id: nat, slack: nat)
    ensures LogBounded(Some(CheckpointLine(id)), slack)
  {
    assert FormatLog(id, []) == CheckpointLine(id);
  }

  lemma PutBounded(u: string, k: string, v: string, n: nat, slack: nat)
    requires Fits(k, v, slack) && (Named(PutEntry(0, u, k, v)) || Headerless(PutEntry(0, u, k, v)))
    ensures EntryBounded(PutEntry(n, u, k, v), slack)
  {
  }

  lemma DeleBounded(u: string, k: string, n: nat, slack: nat)
    requires Named(DeleEntry(0, u, k)) || Headerless(DeleEntry(0, u, k))
    ensures EntryBounded(DeleEntry(n, u, k), slack)
  {
  }

  lemma LoggedBounded(s: State, e: LogEntry, slack: nat)
    requires LogBounded(s.log, slack) && EntryBounded(e, slack)
    ensures forall t: State :: t.log == s.log ==> LogBounded(Logged(t, Format(e)).log, slack)
  {
    hide LogBounded, Format, EntryBounded;
    LogGrows(s.log, e, slack);
  }

  lemma WriteKeepsLog(s: State, user: string, key: string, value: string)
    ensures WriteCell(s, user, key, value).log == s.log
  {
  }

  lemma GetsKeepsLog(s: State, user: string, key: string)
    ensures Gets(s, user, key).0.log == s.log
  {
  }

  /** Every command keeps the log bounded. */
  lemma StepLogBounded(s: State, c: Command, slack: nat)
    requires LogBounded(s.log, slack) && CommandFits(c, slack) && CommandReadable(c)
    ensures LogBounded(Step(s, c).0.log, slack)
  {
    hide LogBounded, Gets, WriteCell, Logged, Format, Fits, Named, Headerless, CheckpointLine, EntryBounded,
      CheckpointedDisk;
    var n := s.maxSequence + 1;
    match c
    case PutsCmd(u, k, v) =>
      PutBounded(u, k, v, n, slack);
      LoggedBounded(s, PutEntry(n, u, k, v), slack);
      WriteKeepsLog(Logged(s.(maxSequence := n, sequenceId := n), Format(PutEntry(n, u, k, v))), u, k, v);
    case CputCmd(u, k, v1, v2) =>
      PutBounded(u, k, v2, n, slack);
      GetsKeepsLog(s, u, k);
      var t := WithHome(Gets(s, u, k).0, u, k, v1).(maxSequence := n, sequenceId := n);
      GetsKeepsLog(t, u, k);
      LoggedBounded(s, PutEntry(n, u, k, v2), slack);
      WriteKeepsLog(Logged(Gets(t, u, k).0, Format(PutEntry(n, u, k, v2))), u, k, v2);
    case GetsCmd(u, k) => GetsKeepsLog(s, u, k);
    case DeleCmd(u, k) =>
      DeleBounded(u, k, n, slack);
      LoggedBounded(s, DeleEntry(n, u, k), slack);
      WriteKeepsLog(Logged(s.(maxSequence := n, sequenceId := n), Format(DeleEntry(n, u, k))), u, k, "");
    case CkptCmd => CheckpointBounded(s.sequenceId, slack);
    case AllCmd(u) =>
  }
}
