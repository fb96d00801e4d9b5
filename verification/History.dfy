/** Durability: the disk and the log of a node against the history of operations it
    has executed. Recovery, by replaying the own log or by synchronising with a
    primary, is proved to rebuild the view of that history. */
module History {
  import opened Text
  import opened Status
  import opened ChunkFolder
  import opened Regex
  import opened LogCodec
  import opened KvModel
  import opened SyncMessages

  // ---- Histories ----

  /** The value of a cell after a history that starts from an empty store. */
  function After(h: seq<Effect>, user: string, key: string): string {
    if h == [] then "" else AfterEffect(h[|h| - 1], user, key, After(h[..|h| - 1], user, key))
  }

  predicate Touches(e: Effect, user: string, key: string) {
    !e.Refused? && e.user == user && e.key == key
  }

  /** The last value given to a cell by the operations from number `from` + 1 on. */
  function LastWrite(h: seq<Effect>, from: nat, user: string, key: string): Option<string> {
    if |h| <= from then None
    else
      var e := h[|h| - 1];
      if Touches(e, user, key) then Some(if e.Wrote? then e.value else "")
      else LastWrite(h[..|h| - 1], from, user, key)
  }

  /** Absorption: replaying operations `c` + 1, `c` + 2, ... over a snapshot taken at any
      later point `d` gives the final state, although operations `c` + 1 to `d` are
      already part of the snapshot. */
  lemma {:induction false} Absorption(h: seq<Effect>, c: nat, d: nat, user: string, key: string)
    requires c <= d <= |h|
    ensures After(h, user, key) == match LastWrite(h, c, user, key)
                                   case Some(v) => v
                                   case None => After(h[..d], user, key)
  {
    if |h| > c && !Touches(h[|h| - 1], user, key) {
      if d == |h| {
        Absorption(h[..|h| - 1], c, d - 1, user, key);
        assert h[..d] == h && h[..|h| - 1][..d - 1] == h[..|h| - 1];
      } else {
        Absorption(h[..|h| - 1], c, d, user, key);
        assert h[..|h| - 1][..d] == h[..d];
      }
    } else {
      assert d == |h| ==> h[..d] == h;
    }
  }

  /** The log entries of the operations after number `from`: a refused compare-and-put
      has a number but no entry. */
  function EntriesFrom(h: seq<Effect>, from: nat): seq<LogEntry> {
    if |h| <= from then []
    else
      EntriesFrom(h[..|h| - 1], from) + EntriesOf(h[|h| - 1], |h|)
  }

  function EntriesOf(e: Effect, n: nat): seq<LogEntry> {
    match e
    case Wrote(u, k, v) => [PutEntry(n, u, k, v)]
    case Erased(u, k) => [DeleEntry(n, u, k)]
    case Refused => []
  }

  /** Replay cannot read the operation back: a refusal has no entry, and the entry of a
      user or key outside the header's character class matches no header. */
  predicate Lost(e: Effect) {
    e.Refused? || !IsName(e.user) || !IsName(e.key)
  }

  predicate NothingLostSince(h: seq<Effect>, from: nat) {
    forall i :: from <= i < |h| ==> !Lost(h[i])
  }

  predicate EffectOk(e: Effect) {
    e.Wrote? ==> |e.value| <= INT_MAX
  }

  predicate HistoryOk(h: seq<Effect>) {
    |h| <= INT_MAX && forall i :: 0 <= i < |h| ==> EffectOk(h[i])
  }

  /** Every entry since then is named, or at least holds no other header. */
  ghost predicate ReadableSince(h: seq<Effect>, from: nat) {
    Readable(EntriesFrom(h, from))
  }

  lemma {:induction false} EntriesFit(h: seq<Effect>, from: nat)
    requires HistoryOk(h)
    ensures AllFit(EntriesFrom(h, from))
  {
    if |h| > from {
      EntriesFit(h[..|h| - 1], from);
      assert EffectOk(h[|h| - 1]);
    }
  }

  lemma {:induction false} NamedOfSnoc(es: seq<LogEntry>, e: LogEntry)
    ensures NamedOf(es + [e]) == NamedOf(es) + if Named(e) then [e] else []
  {
    hide Named;
    var last := if Named(e) then [e] else [];
    if es == [] {
      assert [] + [e] == [e] && [e][1..] == [];
      assert NamedOf([e]) == last + [];
    } else {
      NamedOfSnoc(es[1..], e);
      NamedOfCons(es[0], es[1..] + [e]);
      NamedOfCons(es[0], es[1..]);
      assert es + [e] == [es[0]] + (es[1..] + [e]) && es == [es[0]] + es[1..];
    }
  }

  lemma NamedOfCons(e: LogEntry, es: seq<LogEntry>)
    ensures NamedOf([e] + es) == (if Named(e) then [e] else []) + NamedOf(es)
  {
    hide Named;
    assert ([e] + es)[1..] == es;
  }

  /** What replay reads of a history's log. */
  function NamedFrom(h: seq<Effect>, from: nat): seq<LogEntry> {
    NamedOf(EntriesFrom(h, from))
  }

  lemma NamedFromStep(h: seq<Effect>, c: nat)
    requires c < |h|
    ensures var e := h[|h| - 1];
            NamedFrom(h, c) == NamedFrom(h[..|h| - 1], c) + if Lost(e) then [] else [EntriesOf(e, |h|)[0]]
  {
    hide IsName;
    var e, front := h[|h| - 1], EntriesFrom(h[..|h| - 1], c);
    if e.Refused? {
      assert front + [] == front;
    } else {
      NamedOfSnoc(front, EntriesOf(e, |h|)[0]);
    }
  }

  lemma {:induction false} NothingLostIsNamed(h: seq<Effect>, c: nat)
    requires NothingLostSince(h, c)
    ensures AllNamed(EntriesFrom(h, c)) && NamedFrom(h, c) == EntriesFrom(h, c) && ReadableSince(h, c)
  {
    hide IsName, Silent;
    if |h| > c {
      NothingLostIsNamed(h[..|h| - 1], c);
      assert !Lost(h[|h| - 1]);
    }
    AllAreNamed(EntriesFrom(h, c));
  }

  /** An operation as the front end's users and the system's keys make it: no blanks, and
      nowhere the first word of a header. */
  ghost predicate PlainEffect(e: Effect) {
    e.Refused? || Headerless(EntriesOf(e, 0)[0])
  }

  lemma PlainForAnyNumber(e: Effect, n: nat)
    requires PlainEffect(e) && !e.Refused?
    ensures Headerless(EntriesOf(e, n)[0])
  {
  }

  /** Lost operations are passed over whenever they are plain. */
  lemma {:induction false} PlainIsReadable(h: seq<Effect>, from: nat)
    requires forall i :: from <= i < |h| && Lost(h[i]) ==> PlainEffect(h[i])
    ensures ReadableSince(h, from)
  {
    hide IsName, Silent, Headerless;
    if |h| > from {
      var e := h[|h| - 1];
      PlainIsReadable(h[..|h| - 1], from);
      if !e.Refused? && Lost(e) {
        PlainForAnyNumber(e, |h|);
        HeaderlessIsSilent(EntriesOf(e, |h|)[0]);
      }
    }
  }

  // ---- What a node has on disk, and what it shows ----

  /** The disk is the snapshot after `d` operations, and the log starts at operation
      `c` + 1 with `c` <= `d`: after a log-only synchronisation the log may reach back
      further than the disk. */
  ghost predicate Persisted(s: State, h: seq<Effect>, c: nat, d: nat) {
    && c <= d <= |h| && HistoryOk(h) && DiskClean(s)
    && s.log == Some(FormatLog(c, EntriesFrom(h, c)))
    && forall u, k :: DiskCell(s, u, k) == After(h[..d], u, k)
  }

  /** The running node shows the view after the whole history. */
  ghost predicate Live(s: State, h: seq<Effect>) {
    && Running(s) && s.sequenceId == |h|
    && forall u, k :: Cell(s, u, k) == After(h, u, k)
  }

  /** A node that was never started: no log and no folders. */
  ghost predicate Blank(s: State) {
    s.log == None && s.disk == map[]
  }

  lemma EmptyLog(c: nat)
    ensures FormatLog(c, []) == CheckpointLine(c)
  {
    assert CheckpointLine(c) + "" == CheckpointLine(c);
  }

  lemma FirstStart(s: State)
    requires Blank(s) && s.sequenceId == s.maxSequence == 0 && s.readCache == s.updatesCache == map[]
    ensures var t := InitCacheForPrimary(s).0; Persisted(t, [], 0, 0) && Live(t, [])
  {
    EmptyLog(0);
  }

  // ---- Commands extend the history ----

  lemma EffectPersists(s: State, t: State, h: seq<Effect>, c: nat, d: nat, e: Effect)
    requires Persisted(s, h, c, d) && s.sequenceId == |h|
    requires Took(s, t, e) && EffectOk(e) && |h| < INT_MAX
    ensures Persisted(t, h + [e], c, d)
  {
    hide Running, ViewAfter, FormatLog, Format, EntriesFrom;
    var h' := h + [e];
    assert h'[..|h|] == h && h'[..d] == h[..d];
    EntriesSnoc(h, e, c);
    assert EntriesFrom(h, c) + [] == EntriesFrom(h, c);
    if e != Refused {
      FormatLogSnoc(c, EntriesFrom(h, c), EntriesOf(e, |h'|)[0]);
    }
    RunningIsClean(t);
    forall u, k ensures DiskCell(t, u, k) == After(h'[..d], u, k) {
      assert RowOf(t.disk, u) == RowOf(s.disk, u);
    }
  }

  lemma EntriesSnoc(h: seq<Effect>, e: Effect, c: nat)
    requires c <= |h|
    ensures EntriesFrom(h + [e], c) == EntriesFrom(h, c) + EntriesOf(e, |h| + 1)
  {
    assert (h + [e])[..|h|] == h;
  }

  lemma RunningIsClean(s: State)
    requires Running(s)
    ensures DiskClean(s) && Coherent(s)
  {
  }

  /** A command with an effect appends that effect to the history, on disk and in view. */
  lemma StepExtendsHistory(s: State, c: Command, h: seq<Effect>, from: nat, d: nat)
    requires Persisted(s, h, from, d) && Live(s, h) && |h| < INT_MAX
    requires EffectOf(s, c).Some? && EffectOk(EffectOf(s, c).value)
    ensures var (t, reply) := Step(s, c); var e := EffectOf(s, c).value;
            && Persisted(t, h + [e], from, d) && Live(t, h + [e])
            && reply.status == StatusOf(e)
  {
    hide Step, Persisted, Running;
    var t, e := Step(s, c).0, EffectOf(s, c).value;
    StepTakesEffect(s, c);
    EffectPersists(s, t, h, from, d, e);
    assert (h + [e])[..|h|] == h;
  }

  /** A read changes neither history, disk nor log. */
  lemma ReadKeepsHistory(s: State, c: Command, h: seq<Effect>, from: nat, d: nat)
    requires Persisted(s, h, from, d) && Live(s, h)
    requires EffectOf(s, c).None? && c != CkptCmd
    ensures Persisted(Step(s, c).0, h, from, d) && Live(Step(s, c).0, h)
  {
    hide Step, Running;
    StepKeepsView(s, c);
    RunningIsClean(Step(s, c).0);
  }

  /** A checkpoint moves the snapshot and the start of the log to the present, provided
      every user with pending values has a folder. */
  lemma CheckpointAdvances(s: State, h: seq<Effect>, from: nat, d: nat)
    requires Persisted(s, h, from, d) && Live(s, h) && Homed(s)
    ensures Persisted(CheckpointedByCopy(s), h, |h|, |h|) && Live(CheckpointedByCopy(s), h)
  {
    hide Running;
    var t := CheckpointedByCopy(s);
    CheckpointKeepsView(s);
    RunningIsClean(t);
    assert h[..|h|] == h;
    EmptyLog(|h|);
    forall u, k ensures DiskCell(t, u, k) == After(h, u, k) {
      assert Cell(Checkpointed(s), u, k) == Cell(s, u, k);
    }
  }

  // ---- Replay (backend/cache.h:768-843) ----

  /** One operation of the log, applied without logging it again. */
  function ReplayOne(s: State, item: Item): (State, Status) {
    match item
    case Op(PutEntry(n, u, k, v)) =>
      var (t, status) := Puts(s, u, k, v, n, false);
      (t, if status == Finished then Finished else RecError)
    case Op(DeleEntry(n, u, k)) =>
      var (t, status) := Dele(s, u, k, n, false);
      (t, if status == Finished then Finished else RecError)
    case Unknown => (s, Finished)
    case Throws => (s, Crashed)
  }

  /** The loop: it stops at the first operation that fails. */
  function ReplayItems(s: State, items: seq<Item>): (State, Status) {
    if items == [] then (s, Finished)
    else
      var (t, status) := ReplayItems(s, items[..|items| - 1]);
      if status != Finished then (t, status) else ReplayOne(t, items[|items| - 1])
  }

  function ReplayLoggings(s: State): (State, Status) {
    if s.log.None? then (s, RecError)
    else
      match ExtractCheckpointId(s.log.value)
      case NoId => (s, RecError)
      case IdThrows => (s, Crashed)
      case Id(id) =>
        var cleared := s.(sequenceId := id, readCache := map[], updatesCache := map[]);
        var (t, status) := ReplayItems(cleared, Items(s.log.value));
        if status == Finished then (t.(maxSequence := t.sequenceId), Finished) else (t, status)
  }

  /** backend/cache.h:132-150. */
  function InitCacheForPrimary(s: State): (State, Status) {
    if s.log.None? then (s.(log := Some(CheckpointLine(s.sequenceId))), Finished) else ReplayLoggings(s)
  }

  predicate Contiguous(es: seq<LogEntry>, c: nat) {
    forall i :: 0 <= i < |es| ==> es[i].id == c + 1 + i
  }

  lemma OpsSnoc(es: seq<LogEntry>, e: LogEntry)
    ensures OpsOf(es + [e]) == OpsOf(es) + [Op(e)]
    ensures OpsOf(es + [e])[..|es|] == OpsOf(es)
  {
  }

  /** Replay returns REC_ERROR exactly when the logged numbers have a gap, and otherwise
      ends at the number of the last entry. It never touches disk or log. */
  lemma {:induction false} ReplayFailsOnGap(s: State, es: seq<LogEntry>)
    ensures var (t, status) := ReplayItems(s, OpsOf(es));
            && status == (if Contiguous(es, s.sequenceId) then Finished else RecError)
            && (status == Finished ==> t.sequenceId == s.sequenceId + |es|)
            && t.disk == s.disk && t.log == s.log
  {
    if es != [] {
      var front, e := es[..|es| - 1], es[|es| - 1];
      assert es == front + [e];
      OpsSnoc(front, e);
      ReplayFailsOnGap(s, front);
    }
  }

  lemma {:induction false} EveryEntryCounts(h: seq<Effect>, c: nat)
    requires c <= |h|
    ensures |NamedFrom(h, c)| <= |h| - c
    ensures |NamedFrom(h, c)| == |h| - c <==> NothingLostSince(h, c)
  {
    hide IsName, NamedFrom, Lost;
    if |h| > c {
      EveryEntryCounts(h[..|h| - 1], c);
      NamedFromStep(h, c);
      assert NothingLostSince(h, c) <==> NothingLostSince(h[..|h| - 1], c) && !Lost(h[|h| - 1]);
    } else {
      NothingNamed(h, c);
    }
  }

  lemma NothingNamed(h: seq<Effect>, c: nat)
    requires |h| <= c
    ensures NamedFrom(h, c) == []
  {
  }

  /** A state from which replay starts: caches cleared, at the checkpoint's number. */
  ghost predicate ReadyAt(s: State, c: nat) {
    s.sequenceId == c && s.readCache == s.updatesCache == map[]
  }

  ghost predicate Rebuilt(s: State, t: State, h: seq<Effect>, c: nat) {
    && t.readCache == map[] && t.disk == s.disk && t.log == s.log && t.sequenceId == |h|
    && forall u, k :: Cell(t, u, k) == match LastWrite(h, c, u, k)
                                       case Some(v) => v
                                       case None => DiskCell(s, u, k)
  }

  lemma RebuiltStep(s: State, t: State, h: seq<Effect>, c: nat)
    requires c < |h| && !Lost(h[|h| - 1]) && Rebuilt(s, t, h[..|h| - 1], c)
    ensures var e := h[|h| - 1];
            var next := ReplayOne(t, Op(EntriesOf(e, |h|)[0]));
            next.1 == Finished && Rebuilt(s, next.0, h, c)
  {
    var e := h[|h| - 1];
    var next := ReplayOne(t, Op(EntriesOf(e, |h|)[0])).0;
    var t0 := t.(sequenceId := |h|);
    NoReadsCoherent(t0);
    WriteCellWrites(t0, e.user, e.key, if e.Wrote? then e.value else "");
    forall u, k
      ensures Cell(next, u, k) == match LastWrite(h, c, u, k) case Some(v) => v case None => DiskCell(s, u, k)
    {
      assert Cell(t0, u, k) == Cell(t, u, k);
    }
  }

  lemma NoReadsCoherent(s: State)
    requires s.readCache == map[]
    ensures Coherent(s)
  {
  }

  /** Replaying the log of a history that lost nothing writes the last value of every
      touched cell over the disk. */
  lemma {:induction false} ReplayRebuilds(s: State, h: seq<Effect>, c: nat)
    requires c <= |h| && ReadyAt(s, c) && NothingLostSince(h, c)
    ensures var (t, status) := ReplayItems(s, OpsOf(EntriesFrom(h, c)));
            status == Finished && Rebuilt(s, t, h, c)
  {
    hide Rebuilt;
    if |h| == c {
      NothingToRebuild(s, h, c);
    } else {
      var front, e := h[..|h| - 1], h[|h| - 1];
      ReplayRebuilds(s, front, c);
      OpsSnoc(EntriesFrom(front, c), EntriesOf(e, |h|)[0]);
      RebuiltStep(s, ReplayItems(s, OpsOf(EntriesFrom(front, c))).0, h, c);
    }
  }

  lemma NothingToRebuild(s: State, h: seq<Effect>, c: nat)
    requires |h| == c && ReadyAt(s, c)
    ensures Rebuilt(s, s, h, c)
  {
    forall u ensures RowOf(s.updatesCache, u) == map[] {
    }
  }

  /** A log that is missing, or in which no checkpoint line is found, cannot be replayed. */
  lemma ReplayNeedsCheckpoint(s: State)
    requires s.log.None? || Search(CHECKPOINT, s.log.value).None?
    ensures ReplayLoggings(s).0 == s && ReplayLoggings(s).1 == RecError
  {
  }

  /** A header of another operation is passed over, and the replay finishes. */
  lemma OtherOperationSkipped(s: State, c: nat, n: nat, user: string, key: string, op: string)
    requires s.log == Some(CheckpointLine(c) + HeaderText(n, user, key, op, 0)) && c <= INT_MAX && n <= INT_MAX
    requires IsName(user) && IsName(key) && op != "" && AllIn(Letters, op) && op != "Puts" && op != "Dele"
    ensures var (t, status) := ReplayLoggings(s);
            status == Finished && t == s.(sequenceId := c, maxSequence := c, readCache := map[], updatesCache := map[])
  {
    hide HeaderText, IsName, AllIn, CheckpointLine, Search;
    var header := HeaderText(n, user, key, op, 0);
    CheckpointFound(c, header);
    NumberFits(n);
    NumberFits(0);
    FoundHeader(n, user, key, op, 0, "");
    assert header + "" == header;
    SearchPastCheckpoint(c, header);
    NothingInEmptyText();
    assert NextRound(s.log.value) == Some(Round(Unknown, Some("")));
    assert Items(s.log.value) == [Unknown] + Items("") == [Unknown];
    OneItemReplayed(s.(sequenceId := c, readCache := map[], updatesCache := map[]));
  }

  lemma OneItemReplayed(s: State)
    ensures ReplayItems(s, [Unknown]) == (s, Finished)
  {
    assert [Unknown][..0] == [];
  }

  // ---- Restart from the own log ----

  /** Restarting is correct exactly when nothing was lost since the log's checkpoint: no
      compare-and-put refused, and no user or key outside the header's class. Then, and
      only then, replay finishes at the last number, and the node shows the whole history
      again. For any history, replay executes exactly the logged operations up to the last
      number under that condition only; that the number alone tells needs that lost
      entries hold no header of their own. Disk and log are never changed. */
  lemma RestartRestores(s: State, h: seq<Effect>, c: nat, d: nat)
    requires Persisted(s, h, c, d)
    ensures var (t, status) := ReplayLoggings(s);
            && Persisted(t, h, c, d)
            && (NothingLostSince(h, c) ==> status == Finished && t.sequenceId == |h| && Live(t, h))
            && (Items(s.log.value) == OpsOf(EntriesFrom(h, c)) && status == Finished && t.sequenceId == |h| <==>
                NothingLostSince(h, c))
            && (ReadableSince(h, c) ==>
                  && (status == Finished && t.sequenceId == |h| <==> NothingLostSince(h, c))
                  && (status == Finished || status == RecError))
  {
    hide Items, ReplayItems, ExtractCheckpointId, FormatLog, OpsOf, Rebuilt, EntriesFrom, NothingLostSince, Readable,
      AllNamed, NamedOf, AllFit;
    var es := EntriesFrom(h, c);
    CheckpointRead(s, h, c, d);
    var cleared := s.(sequenceId := c, readCache := map[], updatesCache := map[]);
    ReplayKeepsDisk(s);
    SameDiskPersisted(s, ReplayLoggings(s).0, h, c, d);
    if NothingLostSince(h, c) {
      NothingLostIsNamed(h, c);
      ReplayRebuilds(cleared, h, c);
      RebuiltIsLive(s, cleared, ReplayItems(cleared, OpsOf(es)).0, h, c, d);
    }
    if Items(s.log.value) == OpsOf(es) {
      ReadBackReadable(s.log.value, h, c);
    }
    if ReadableSince(h, c) {
      LogReadsAs(s, h, c, d);
      ReplayFailsOnGap(cleared, NamedFrom(h, c));
      EveryEntryCounts(h, c);
    }
  }

  lemma ReadBackReadable(loggings: string, h: seq<Effect>, c: nat)
    requires Items(loggings) == OpsOf(EntriesFrom(h, c))
    ensures ReadableSince(h, c)
  {
    hide Items, Named, Silent, EntriesFrom;
    ReadBackNamed(loggings, EntriesFrom(h, c));
  }

  lemma CheckpointRead(s: State, h: seq<Effect>, c: nat, d: nat)
    requires Persisted(s, h, c, d)
    ensures ExtractCheckpointId(s.log.value) == Id(c)
    ensures NothingLostSince(h, c) ==> Items(s.log.value) == OpsOf(EntriesFrom(h, c))
  {
    hide Items, FormatLog, After, EntriesFrom;
    EntriesFit(h, c);
    LogRoundTrip(c, EntriesFrom(h, c));
    if NothingLostSince(h, c) {
      NothingLostIsNamed(h, c);
    }
  }

  /** What replay meets in the log of a history. */
  lemma LogReadsAs(s: State, h: seq<Effect>, c: nat, d: nat)
    requires Persisted(s, h, c, d) && ReadableSince(h, c)
    ensures Items(s.log.value) == OpsOf(NamedFrom(h, c))
  {
    hide Items, FormatLog, FormatAll, After, Readable, EntriesFrom;
    EntriesFit(h, c);
    ItemsOfLog(c, EntriesFrom(h, c));
    ItemsOfEntries(EntriesFrom(h, c));
  }

  lemma SameDiskPersisted(s: State, t: State, h: seq<Effect>, c: nat, d: nat)
    requires Persisted(s, h, c, d) && t.disk == s.disk && t.log == s.log
    ensures Persisted(t, h, c, d)
  {
    hide After, FormatLog, EntriesFrom;
    forall u, k ensures DiskCell(t, u, k) == DiskCell(s, u, k) {
    }
  }

  lemma RebuiltIsLive(s: State, cleared: State, t: State, h: seq<Effect>, c: nat, d: nat)
    requires Persisted(s, h, c, d) && cleared.disk == s.disk && Rebuilt(cleared, t, h, c)
    ensures Live(t.(maxSequence := t.sequenceId), h)
  {
    hide After, LastWrite, FormatLog, EntriesFrom;
    var r := t.(maxSequence := t.sequenceId);
    NoReadsCoherent(r);
    forall u, k ensures Cell(r, u, k) == After(h, u, k) {
      assert Cell(r, u, k) == Cell(t, u, k);
      assert DiskCell(cleared, u, k) == DiskCell(s, u, k);
      Absorption(h, c, d, u, k);
    }
  }

  /** A lost operation that a later readable one follows. */
  ghost predicate GapSince(h: seq<Effect>, c: nat) {
    exists j, l :: c <= j < l < |h| && Lost(h[j]) && !Lost(h[l])
  }

  lemma {:induction false} GapsInEntries(h: seq<Effect>, c: nat)
    requires c <= |h|
    ensures Contiguous(NamedFrom(h, c), c) <==> !GapSince(h, c)
  {
    hide IsName, NamedFrom, Lost, EntriesFrom;
    if |h| > c {
      var front, e := h[..|h| - 1], h[|h| - 1];
      GapsInEntries(front, c);
      EveryEntryCounts(front, c);
      NamedFromStep(h, c);
      GapStep(h, c);
      if !Lost(e) {
        EntryNumber(e, |h|);
        ContiguousSnoc(NamedFrom(front, c), EntriesOf(e, |h|)[0], c);
        assert |NamedFrom(front, c)| == |h| - 1 - c <==> NothingLostSince(front, c);
      } else {
        assert NamedFrom(front, c) + [] == NamedFrom(front, c);
      }
    } else {
      NothingNamed(h, c);
    }
  }

  lemma EntryNumber(e: Effect, n: nat)
    requires !Lost(e)
    ensures |EntriesOf(e, n)| == 1 && EntriesOf(e, n)[0].id == n
  {
  }

  lemma ContiguousSnoc(es: seq<LogEntry>, e: LogEntry, c: nat)
    ensures Contiguous(es + [e], c) <==> Contiguous(es, c) && e.id == c + 1 + |es|
  {
    if Contiguous(es + [e], c) {
      assert (es + [e])[|es|] == e;
      assert forall i :: 0 <= i < |es| ==> es[i] == (es + [e])[i];
    }
  }

  lemma GapStep(h: seq<Effect>, c: nat)
    requires c < |h|
    ensures var front := h[..|h| - 1];
            GapSince(h, c) <==> GapSince(front, c) || (!Lost(h[|h| - 1]) && !NothingLostSince(front, c))
  {
    hide Lost;
    var front, last := h[..|h| - 1], |h| - 1;
    if GapSince(front, c) {
      var j, l :| c <= j < l < |front| && Lost(front[j]) && !Lost(front[l]);
      assert Lost(h[j]) && !Lost(h[l]);
    }
    if !Lost(h[last]) && !NothingLostSince(front, c) {
      var j :| c <= j < |front| && Lost(front[j]);
      assert Lost(h[j]) && !Lost(h[last]);
    }
    if GapSince(h, c) {
      var j, l :| c <= j < l < |h| && Lost(h[j]) && !Lost(h[l]);
      assert Lost(front[j]);
      assert l < last ==> !Lost(front[l]);
    }
  }

  /** Restart ends in REC_ERROR exactly when, since the checkpoint, a lost operation was
      followed by one that replay can read. */
  lemma RestartFailsExactlyOnGap(s: State, h: seq<Effect>, c: nat, d: nat)
    requires Persisted(s, h, c, d) && ReadableSince(h, c)
    ensures ReplayLoggings(s).1 == RecError <==> GapSince(h, c)
  {
    hide Items, ReplayItems, ExtractCheckpointId, FormatLog, OpsOf, EntriesFrom, GapSince, Readable, NamedFrom;
    CheckpointRead(s, h, c, d);
    LogReadsAs(s, h, c, d);
    ReplayFailsOnGap(s.(sequenceId := c, readCache := map[], updatesCache := map[]), NamedFrom(h, c));
    GapsInEntries(h, c);
  }

  /** The user "a*b" may sign up (frontend/login.h:6-21). After one write by that user and
      one by another, with nothing refused, a restart ends in REC_ERROR. */
  lemma StarUserBreaksRestart(c: Command, d: Command)
    requires c == PutsCmd("a*b", "k", "v") && d == PutsCmd("u", "k", "v")
    ensures var s := Step(Step(InitCacheForPrimary(FRESH).0, c).0, d).0;
            Live(s, [Wrote("a*b", "k", "v"), Wrote("u", "k", "v")]) && ReplayLoggings(s).1 == RecError
  {
    hide Step, Persisted, ReplayLoggings, InitCacheForPrimary, After;
    var s0, e1, e2 := InitCacheForPrimary(FRESH).0, Wrote("a*b", "k", "v"), Wrote("u", "k", "v");
    FirstStart(FRESH);
    StepExtendsHistory(s0, c, [], 0, 0);
    assert [] + [e1] == [e1];
    StepExtendsHistory(Step(s0, c).0, d, [e1], 0, 0);
    var h := [e1] + [e2];
    assert h == [e1, e2];
    StarEntries(h);
    RestartFailsExactlyOnGap(Step(Step(s0, c).0, d).0, h, 0, 0);
  }

  lemma StarEntries(h: seq<Effect>)
    requires h == [Wrote("a*b", "k", "v"), Wrote("u", "k", "v")]
    ensures ReadableSince(h, 0) && GapSince(h, 0)
  {
    assert "a*b"[1] == '*';
    assert Lost(h[0]) && !Lost(h[1]);
    ShortQuiet("a*b");
    ShortQuiet("k");
    ShortQuiet("v");
    assert PlainEffect(h[0]);
    hide EntriesFrom, Lost, PlainEffect, ReadableSince;
    PlainIsReadable(h, 0);
  }

  /** Without the condition on lost entries neither status nor number tells. The user "a*b"
      writes a value that is the text of an entry of "u", who never writes: the restart
      finishes at the right number, and shows a value of "u" in place of the one written. */
  lemma StarValueIsReplayed(v: string, w: string)
    requires v + "\n" == Format(PutEntry(1, "u", "k", w)) && |v| <= INT_MAX
    ensures var s := Step(InitCacheForPrimary(FRESH).0, PutsCmd("a*b", "k", v)).0; var (t, status) := ReplayLoggings(s);
            && Live(s, [Wrote("a*b", "k", v)]) && status == Finished && t.sequenceId == 1
            && Cell(s, "a*b", "k") == v && Cell(s, "u", "k") == ""
            && Cell(t, "a*b", "k") == "" && Cell(t, "u", "k") == w
  {
    hide Step, Persisted, Items, InitCacheForPrimary, Format, Running, ExtractCheckpointId, FormatLog, ReplayItems,
      WriteCell;
    var s0, e := InitCacheForPrimary(FRESH).0, Wrote("a*b", "k", v);
    var s, h := Step(s0, PutsCmd("a*b", "k", v)).0, [e];
    FirstStart(FRESH);
    assert [] + [e] == h && h[..0] == [];
    StepExtendsHistory(s0, PutsCmd("a*b", "k", v), [], 0, 0);
    LoggedFrom(s, h, 0, 0);
    StarItems(s, v, w);
    var cleared := s.(sequenceId := 0, readCache := map[], updatesCache := map[]);
    var inner := PutEntry(1, "u", "k", w);
    OneOperation(cleared, inner);
    NoReadsCoherent(cleared.(sequenceId := 1));
    WriteCellWrites(cleared.(sequenceId := 1), "u", "k", w);
    EmptyDisk(s, h);
    assert After(h, "a*b", "k") == v && After(h, "u", "k") == "";
    assert Cell(s, "a*b", "k") == v && Cell(s, "u", "k") == "";
    var t := WriteCell(cleared.(sequenceId := 1), "u", "k", w);
    assert ReplayItems(cleared, [Op(inner)]) == (t, Finished);
    assert ReplayLoggings(s) == (t.(maxSequence := t.sequenceId), Finished);
    assert DiskCell(cleared.(sequenceId := 1), "a*b", "k") == DiskCell(s, "a*b", "k");
    assert Cell(t, "a*b", "k") == "" && Cell(t, "u", "k") == w;
  }

  lemma EmptyDisk(s: State, h: seq<Effect>)
    requires Persisted(s, h, 0, 0)
    ensures forall u, k :: DiskCell(s, u, k) == ""
  {
    hide FormatLog, EntriesFrom;
    EmptyHistory();
    assert h[..0] == [];
  }

  lemma OneOperation(s: State, e: LogEntry)
    ensures ReplayItems(s, [Op(e)]) == ReplayOne(s, Op(e))
  {
    assert [Op(e)][..0] == [];
  }

  lemma StarNames()
    ensures !IsName("a*b") && IsName("u") && IsName("k") && NoSpaces("a*b") && NoSpaces("k")
    ensures !HasFirstWord("a*b") && !HasFirstWord("k")
  {
    assert "a*b"[1] == '*';
    ShortQuiet("a*b");
    ShortQuiet("k");
  }

  lemma ValueWithin(e: LogEntry)
    requires e.PutEntry?
    ensures |e.value| < |Format(e)|
  {
  }

  lemma StarItems(s: State, v: string, w: string)
    requires v + "\n" == Format(PutEntry(1, "u", "k", w)) && |v| <= INT_MAX
    requires Persisted(s, [Wrote("a*b", "k", v)], 0, 0)
    ensures Items(s.log.value) == [Op(PutEntry(1, "u", "k", w))]
  {
    hide Items, FormatLog, Format, IsName, HasFirstWord, After, NextRound, NoSpaces;
    var e, inner := PutEntry(1, "a*b", "k", v), PutEntry(1, "u", "k", w);
    StarNames();
    ValueWithin(inner);
    assert EntriesFrom([Wrote("a*b", "k", v)], 0) == [e];
    ItemsOfLog(0, [e]);
    assert FormatAll([e]) == Format(e) + "";
    ValueIsReplayed(1, "a*b", "k", v, "");
    assert v + "\n" + "" == Format(inner) + "";
    NamedRound(inner, "");
    OneItem(inner);
  }

  lemma OneItem(e: LogEntry)
    requires NextRound(Format(e) + "") == Some(Round(Op(e), Some("")))
    ensures Items(Format(e) + "") == [Op(e)]
  {
    hide NextRound, Format;
    NothingInEmptyText();
  }

  // ---- Synchronising a secondary with a primary (backend/cache.h:422-588) ----

  datatype Need = LogOnly | Full | NeedThrows

  /** The secondary compares the primary's checkpoint with its own, which counts as 0
      without a log file. */
  function NeedFullSync(local: Option<string>, loggings: string): Need {
    var mine := if local.None? then Id(0) else ExtractCheckpointId(local.value);
    if mine == NoId then Full
    else if mine == IdThrows then NeedThrows
    else
      match ExtractCheckpointId(loggings)
      case NoId => Full
      case IdThrows => NeedThrows
      case Id(primary) => if primary > mine.id then Full else LogOnly
  }

  /** The messages of a full synchronisation carry the primary's files, in the order of
      some listing. */
  ghost predicate Sends(primary: State, messages: seq<string>) {
    exists files :: SentFrom(files, messages) && files.log == primary.log && DiskTable(files.folders) == primary.disk
  }

  /** The files received replace the node's own; if one of them cannot be received, what
      arrived before it stays (backend/cache.h:590-696). */
  function FullSync(messages: seq<string>): (State, Status) {
    var (image, receivedAllFiles) := ReceiveFiles(NO_FILES, messages);
    var t := State(DiskTable(image.folders), image.log, 0, 0, map[], map[]);
    if receivedAllFiles then ReplayLoggings(t) else (t, SyncError)
  }

  /** A full synchronisation replaces disk and log, the other one only the log; both
      end by replaying the primary's log. */
  function RecoverFromPrimary(s: State, loggings: Option<string>, messages: seq<string>): (State, Status) {
    if loggings.None? then (s, SyncError)
    else
      match NeedFullSync(s.log, loggings.value)
      case NeedThrows => (s, Crashed)
      case Full => FullSync(messages)
      case LogOnly => ReplayLoggings(s.(log := loggings))
  }

  /** What a node needs on disk to be synchronised: a snapshot after `d` operations, its
      own checkpoint number `c` not beyond it; or nothing at all. */
  ghost predicate OnDisk(s: State, h: seq<Effect>, c: nat, d: nat) {
    Persisted(s, h, c, d) || (Blank(s) && h == [] && c == d == 0)
  }

  /** The two histories have the same first `d` operations. */
  ghost predicate SameUntil(d: nat, a: seq<Effect>, b: seq<Effect>) {
    d <= |a| && d <= |b| && a[..d] == b[..d]
  }

  /** The log of the primary over the older but not too old snapshot of the secondary. */
  lemma PrimaryLogOverOwnDisk(s: State, primary: State, mine: seq<Effect>, h: seq<Effect>,
                              c: nat, d: nat, p: nat, dp: nat)
    requires OnDisk(s, mine, c, d) && SameUntil(d, mine, h) && Persisted(primary, h, p, dp) && p <= c
    ensures Persisted(s.(log := primary.log), h, p, d)
  {
    hide After, FormatLog, EntriesFrom;
    var t := s.(log := primary.log);
    EmptyHistory();
    forall u, k ensures DiskCell(t, u, k) == After(h[..d], u, k) {
      assert DiskCell(t, u, k) == DiskCell(s, u, k);
    }
  }

  lemma EmptyHistory()
    ensures forall u, k :: After([], u, k) == ""
  {
  }

  /** The header of the file transfer can carry the name of every user with a folder. */
  predicate CarriedUsers(disk: Table) {
    forall u :: u in disk ==> IsPath(u)
  }

  /** A part of the primary's folders, each complete, and its log or none. */
  ghost predicate PartOfDisk(t: State, primary: State) {
    && t.sequenceId == t.maxSequence == 0 && t.readCache == t.updatesCache == map[]
    && (t.log == None || t.log == primary.log)
    && forall u :: u in t.disk ==> u in primary.disk && t.disk[u] == primary.disk[u]
  }

  /** A full synchronisation copies the primary's files if and only if the header can carry
      all names. Where it cannot, and no name has a blank, the secondary is left with an
      error and a part of the files. */
  lemma FullSyncCopies(primary: State, messages: seq<string>)
    requires Sends(primary, messages)
    ensures var (t, status) := FullSync(messages); var carried := CarriedUsers(primary.disk);
            && (carried ==> (t, status) == ReplayLoggings(State(primary.disk, primary.log, 0, 0, map[], map[])))
            && (!carried ==> t.disk != primary.disk)
            && (!carried && BlankFree(primary.disk.Keys) ==> status == SyncError && PartOfDisk(t, primary))
  {
    hide ReplayLoggings, ReceiveFiles, IsPath, NoSpaces, SentFrom, Contents;
    var files :| SentFrom(files, messages) && files.log == primary.log && DiskTable(files.folders) == primary.disk;
    assert Carried(files.folders) <==> CarriedUsers(primary.disk) by {
      assert files.folders.Keys == primary.disk.Keys;
    }
    TransferIff(files, messages);
    var image := ReceiveFiles(NO_FILES, messages).0;
    OnlyPathsAppear(NO_FILES, messages);
    ReplayKeepsDisk(State(DiskTable(image.folders), image.log, 0, 0, map[], map[]));
    assert FullSync(messages).0.disk.Keys == image.folders.Keys;
  }

  /** A synchronisation that is cut short never finishes. */
  lemma CutShortFails(messages: seq<string>)
    requires SYNC_DONE !in messages
    ensures FullSync(messages).1 == SyncError
  {
    NoEndNoSuccess(NO_FILES, messages);
  }

  /** Main result on synchronisation: a secondary whose snapshot is an earlier point of the
      primary's history, checkpointed before or after the primary's own checkpoint, ends
      with the primary's view and sequence number, by either branch, if and only if the
      primary lost nothing since its checkpoint and, where a full synchronisation is due,
      the transfer's header can carry the name of every user with a folder. Under the second
      condition its files are always a snapshot and a log of the primary's history; without
      it, and with no blank in the names, the answer is SYNC_ERROR, and the node's own files
      are gone. */
  lemma RecoveryAgrees(s: State, primary: State, messages: seq<string>, mine: seq<Effect>, h: seq<Effect>,
                       c: nat, d: nat, p: nat, dp: nat)
    requires OnDisk(s, mine, c, d) && Persisted(primary, h, p, dp)
    requires if p > c then Sends(primary, messages) else SameUntil(d, mine, h)
    ensures var (t, status) := RecoverFromPrimary(s, primary.log, messages);
            var carried := p > c ==> CarriedUsers(primary.disk);
            var atEnd := status == Finished && t.sequenceId == |h|;
            && (carried <==> t.disk == if p > c then primary.disk else s.disk)
            && (carried ==> Persisted(t, h, p, if p > c then dp else d))
            && (carried && NothingLostSince(h, p) ==> atEnd && Live(t, h))
            && (carried && NothingLostSince(h, p) <==>
                carried && atEnd && Items(primary.log.value) == OpsOf(EntriesFrom(h, p)))
            && (ReadableSince(h, p) && (p > c ==> BlankFree(primary.disk.Keys)) ==>
                  (atEnd <==> carried && NothingLostSince(h, p)))
            && (!carried && BlankFree(primary.disk.Keys) ==> status == SyncError && PartOfDisk(t, primary))
  {
    hide ReplayLoggings, ExtractCheckpointId, NothingLostSince, After, FormatLog, EntriesFrom, Readable, Items, OpsOf,
      FullSync, CarriedUsers, BlankFree, Sends, Running, Live, Persisted, PartOfDisk;
    LoggedFrom(primary, h, p, dp);
    OwnCheckpoint(s, mine, c, d);
    if p > c {
      FullSyncCopies(primary, messages);
      var copied := State(primary.disk, primary.log, 0, 0, map[], map[]);
      SameDiskPersisted(primary, copied, h, p, dp);
      RestartRestores(copied, h, p, dp);
      ReplayKeepsDisk(copied);
    } else {
      PrimaryLogOverOwnDisk(s, primary, mine, h, c, d, p, dp);
      RestartRestores(s.(log := primary.log), h, p, d);
      ReplayKeepsDisk(s.(log := primary.log));
    }
  }

  lemma OwnCheckpoint(s: State, mine: seq<Effect>, c: nat, d: nat)
    requires OnDisk(s, mine, c, d)
    ensures (if s.log.None? then Id(0) else ExtractCheckpointId(s.log.value)) == Id(c)
  {
    hide ExtractCheckpointId;
    if s.log.Some? {
      CheckpointRead(s, mine, c, d);
    }
  }

  // ---- Synchronising with a primary that missed operations ----

  /** A node whose own checkpoint is not older takes the primary's log over whatever disk it
      has. It reaches the primary's number, and shows the primary's view if and only if its
      disk agrees in every cell that the log does not write. */
  lemma LogOverAnyDisk(s: State, primary: State, messages: seq<string>, h: seq<Effect>, c: nat, p: nat, dp: nat)
    requires s.log.Some? && ExtractCheckpointId(s.log.value) == Id(c) && p <= c
    requires Persisted(primary, h, p, dp) && NothingLostSince(h, p)
    ensures var (t, status) := RecoverFromPrimary(s, primary.log, messages);
            && status == Finished && t.sequenceId == |h|
            && (forall u, k :: Cell(t, u, k) == match LastWrite(h, p, u, k)
                                               case Some(v) => v
                                               case None => DiskCell(s, u, k))
            && ((forall u, k :: Cell(t, u, k) == After(h, u, k)) <==>
                forall u, k :: LastWrite(h, p, u, k) == None ==> DiskCell(s, u, k) == After(h, u, k))
  {
    hide Items, ReplayItems, ExtractCheckpointId, FormatLog, OpsOf, EntriesFrom, After, NothingLostSince, LastWrite,
      FullSync;
    CheckpointRead(primary, h, p, dp);
    var cleared := s.(log := primary.log, sequenceId := p, readCache := map[], updatesCache := map[]);
    ReplayRebuilds(cleared, h, p);
    var t := RecoverFromPrimary(s, primary.log, messages).0;
    forall u, k ensures Cell(t, u, k) == match LastWrite(h, p, u, k)
                                        case Some(v) => v
                                        case None => DiskCell(s, u, k)
    {
      assert DiskCell(cleared, u, k) == DiskCell(s, u, k);
    }
    forall u, k ensures LastWrite(h, p, u, k).Some? ==> LastWrite(h, p, u, k).value == After(h, u, k) {
      Absorption(h, p, |h|, u, k);
    }
  }

  /** A secondary that checkpointed after operations which the primary missed takes the
      primary's log over its own newer disk. It reaches the primary's number, and shows the
      primary's view if and only if its snapshot agrees in every cell that the primary's log
      does not write. */
  lemma StaleRejoin(s: State, primary: State, messages: seq<string>, mine: seq<Effect>, h: seq<Effect>,
                    c: nat, d: nat, p: nat, dp: nat)
    requires Persisted(s, mine, c, d) && Persisted(primary, h, p, dp) && p <= c && NothingLostSince(h, p)
    ensures var (t, status) := RecoverFromPrimary(s, primary.log, messages);
            && status == Finished && t.sequenceId == |h|
            && (forall u, k :: Cell(t, u, k) == match LastWrite(h, p, u, k)
                                               case Some(v) => v
                                               case None => After(mine[..d], u, k))
            && ((forall u, k :: Cell(t, u, k) == After(h, u, k)) <==>
                forall u, k :: LastWrite(h, p, u, k) == None ==> After(mine[..d], u, k) == After(h, u, k))
  {
    hide ExtractCheckpointId, FormatLog, EntriesFrom, After, NothingLostSince, LastWrite, RecoverFromPrimary;
    LoggedFrom(s, mine, c, d);
    LogOverAnyDisk(s, primary, messages, h, c, p, dp);
  }

  /** Such a run: two nodes start, one fails, a user signs up on the other, which takes a
      checkpoint and fails too; the first one restarts alone, and the second one rejoins.
      Both are at number 0 and show different cells. */
  lemma StaleRestartDiverges(messages: seq<string>)
    ensures var first := InitCacheForPrimary(FRESH).0;
            var b := Step(Step(first, CputCmd("u", "pwd", "", "x")).0, CkptCmd).0;
            var a := InitCacheForPrimary(first).0;
            var (t, status) := RecoverFromPrimary(b, a.log, messages);
            && status == Finished && t.sequenceId == a.sequenceId == 0
            && Cell(t, "u", "pwd") == "x" && Cell(a, "u", "pwd") == ""
  {
    hide Step, Persisted, RecoverFromPrimary, ReplayLoggings, Items, Running, ExtractCheckpointId;
    var first, h := InitCacheForPrimary(FRESH).0, [Wrote("u", "pwd", "x")];
    var signUp := CputCmd("u", "pwd", "", "x");
    FirstStart(FRESH);
    EmptyHistory();
    RestartRestores(first, [], 0, 0);
    assert first.log.Some?;
    SignedUp("u");
    StaleRejoin(Step(Step(first, signUp).0, CkptCmd).0, InitCacheForPrimary(first).0, messages, h, [], 1, 1, 0, 0);
    assert h[..1] == h && h[..0] == [];
    assert After(h, "u", "pwd") == "x";
  }

  /** A first sign-up, and a checkpoint after it. */
  lemma SignedUp(user: string)
    ensures var first := InitCacheForPrimary(FRESH).0; var up := Step(first, CputCmd(user, "pwd", "", "x")).0;
            var t := Step(up, CkptCmd).0; var h := [Wrote(user, "pwd", "x")];
            Persisted(t, h, 1, 1) && Live(t, h) && t.disk.Keys == {user}
  {
    hide Step, Persisted, Running, ReplayLoggings, ExtractCheckpointId;
    var first, e := InitCacheForPrimary(FRESH).0, Wrote(user, "pwd", "x");
    var signUp := CputCmd(user, "pwd", "", "x");
    FirstStart(FRESH);
    EmptyHistory();
    StepExtendsHistory(first, signUp, [], 0, 0);
    var h, up := [e], Step(first, signUp).0;
    assert [] + [e] == h;
    SignUpMakesHome(first, user);
    CheckpointAdvances(up, h, 0, 0);
    CheckpointStep(up);
  }

  lemma CheckpointStep(s: State)
    ensures Step(s, CkptCmd).0 == CheckpointedByCopy(s)
    ensures Step(s, CkptCmd).0.disk.Keys == s.disk.Keys
  {
  }

  lemma SignUpMakesHome(s: State, user: string)
    requires s.disk == map[] && s.readCache == s.updatesCache == map[] && s.sequenceId == s.maxSequence == 0
    ensures var t := Step(s, CputCmd(user, "pwd", "", "x")).0; Homed(t) && t.disk.Keys == {user}
  {
    hide Format;
    var t := Step(s, CputCmd(user, "pwd", "", "x")).0;
    assert t.disk == map[user := map[]];
    assert t.updatesCache == map[user := map["pwd" := "x"]];
  }

  // ---- After a full synchronisation that stopped ----

  /** When the log arrived before the synchronisation stopped, the next attempt takes the
      node's files for a recent snapshot: it finishes at the primary's number over the part
      that arrived, and shows the primary's view if and only if that part has every cell
      that the log does not write. */
  lemma RetryAfterStop(t: State, primary: State, messages: seq<string>, h: seq<Effect>, p: nat, dp: nat)
    requires PartOfDisk(t, primary) && t.log.Some? && Persisted(primary, h, p, dp) && NothingLostSince(h, p)
    ensures var (r, status) := RecoverFromPrimary(t, primary.log, messages);
            && status == Finished && r.sequenceId == |h|
            && (forall u, k :: Cell(r, u, k) == match LastWrite(h, p, u, k)
                                               case Some(v) => v
                                               case None => DiskCell(t, u, k))
            && ((forall u, k :: Cell(r, u, k) == After(h, u, k)) <==>
                forall u, k :: LastWrite(h, p, u, k) == None ==> DiskCell(t, u, k) == After(h, u, k))
  {
    hide ExtractCheckpointId, FormatLog, EntriesFrom, After, NothingLostSince, LastWrite, RecoverFromPrimary;
    LoggedFrom(primary, h, p, dp);
    LogOverAnyDisk(t, primary, messages, h, p, p, dp);
  }

  /** The user "a*b" signs up on a primary, which takes a checkpoint: nothing is lost, and
      yet a secondary that started before cannot be synchronised and loses its files. If the
      log came first, a second attempt finishes at the right number without the new cell. */
  lemma StarFolderStopsSync(s: State, messages: seq<string>, again: seq<string>)
    requires var first := InitCacheForPrimary(FRESH).0;
             var primary := Step(Step(first, CputCmd("a*b", "pwd", "", "x")).0, CkptCmd).0;
             OnDisk(s, [], 0, 0) && Sends(primary, messages)
    ensures var first := InitCacheForPrimary(FRESH).0;
            var primary := Step(Step(first, CputCmd("a*b", "pwd", "", "x")).0, CkptCmd).0;
            var (t, status) := RecoverFromPrimary(s, primary.log, messages); var h := [Wrote("a*b", "pwd", "x")];
            var (r, retried) := RecoverFromPrimary(t, primary.log, again);
            && Live(primary, h) && NothingLostSince(h, 1)
            && status == SyncError && t.disk == map[]
            && (t.log.Some? ==> retried == Finished && r.sequenceId == |h| && Cell(r, "a*b", "pwd") == "")
  {
    hide Step, Persisted, RecoverFromPrimary, Running, Sends, OnDisk, InitCacheForPrimary, After, IsPath, NoSpaces,
      PartOfDisk, ReplayLoggings;
    var first, signUp := InitCacheForPrimary(FRESH).0, CputCmd("a*b", "pwd", "", "x");
    var h, primary := [Wrote("a*b", "pwd", "x")], Step(Step(first, signUp).0, CkptCmd).0;
    SignedUp("a*b");
    assert primary.disk.Keys == {"a*b"};
    StarIsNoPath();
    RecoveryAgrees(s, primary, messages, [], h, 0, 0, 1, 1);
    var t := RecoverFromPrimary(s, primary.log, messages).0;
    PartWithout(t, primary, "a*b");
    if t.log.Some? {
      RetryAfterStop(t, primary, again, h, 1, 1);
    }
  }

  lemma StarIsNoPath()
    ensures !IsPath("a*b") && NoSpaces("a*b")
  {
    assert "a*b"[1] == '*';
  }

  lemma PartWithout(t: State, primary: State, user: string)
    requires PartOfDisk(t, primary) && primary.disk.Keys == {user} && t.disk != primary.disk
    ensures t.disk == map[]
  {
    assert user !in t.disk || t.disk == primary.disk;
  }

  // ---- Where checkpoints lose data ----

  /** A node that checkpoints and then restarts shows its old view if and only if every
      user with a pending non-empty value has a folder: `append_kvs` drops the rest. */
  lemma CheckpointThenRestart(s: State)
    requires Running(s) && s.sequenceId <= INT_MAX
    ensures var (t, status) := ReplayLoggings(CheckpointedByCopy(s));
            status == Finished && (SameView(s, t) <==> Homed(s))
  {
    hide Items, ExtractCheckpointId, Running, Homed, CheckpointedDisk;
    EmptyLog(s.sequenceId);
    LogRoundTrip(s.sequenceId, []);
    assert OpsOf([]) == [];
    CheckpointKeepsView(s);
    var t := ReplayLoggings(CheckpointedByCopy(s)).0;
    ShownByDisk(t, Checkpointed(s));
  }

  lemma ShownByDisk(s: State, t: State)
    requires s.disk == t.disk && s.updatesCache == t.updatesCache == map[]
    ensures forall u, k :: Cell(s, u, k) == Cell(t, u, k)
  {
  }

  /** A fresh node that joins before the primary's first checkpoint gets the log only
      and so no folders: with any value to show it is not ready to checkpoint. */
  lemma JoiningByLogLacksFolders(primary: State, messages: seq<string>, h: seq<Effect>, dp: nat,
                                 user: string, key: string)
    requires Persisted(primary, h, 0, dp) && NothingLostSince(h, 0) && After(h, user, key) != ""
    ensures var (t, status) := RecoverFromPrimary(FRESH, primary.log, messages);
            status == Finished && Live(t, h) && !Homed(t)
  {
    hide ExtractCheckpointId, NothingLostSince, After, FormatLog, EntriesFrom, Items, Persisted, Running, FullSync;
    var t := RecoverFromPrimary(FRESH, primary.log, messages).0;
    FreshIsOnDisk(h);
    RecoveryAgrees(FRESH, primary, messages, [], h, 0, 0, 0, dp);
    LoggedFrom(primary, h, 0, dp);
    ReplayKeepsDisk(FRESH.(log := primary.log));
    assert t.disk == map[];
    assert Cell(t, user, key) == After(h, user, key);
    assert key in RowOf(t.updatesCache, user);
  }

  lemma FreshIsOnDisk(h: seq<Effect>)
    ensures OnDisk(FRESH, [], 0, 0) && SameUntil(0, [], h)
  {
  }

  lemma LoggedFrom(s: State, h: seq<Effect>, c: nat, d: nat)
    requires Persisted(s, h, c, d)
    ensures s.log.Some? && ExtractCheckpointId(s.log.value) == Id(c)
  {
    CheckpointRead(s, h, c, d);
  }

  lemma {:induction false} ItemsKeepDisk(s: State, items: seq<Item>)
    ensures ReplayItems(s, items).0.disk == s.disk && ReplayItems(s, items).0.log == s.log
  {
    if items != [] {
      ItemsKeepDisk(s, items[..|items| - 1]);
    }
  }

  lemma ReplayKeepsDisk(s: State)
    ensures ReplayLoggings(s).0.disk == s.disk && ReplayLoggings(s).0.log == s.log
  {
    hide Items, ExtractCheckpointId, ReplayItems;
    if s.log.Some? && ExtractCheckpointId(s.log.value).Id? {
      ItemsKeepDisk(s.(sequenceId := ExtractCheckpointId(s.log.value).id, readCache := map[], updatesCache := map[]),
                    Items(s.log.value));
    }
  }
}
