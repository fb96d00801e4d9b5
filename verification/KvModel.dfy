/** The store node as a state machine over values: what each operation of
    `KvCache` and each command of `run_command` does to the disk, the log, the
    sequence numbers and the two caches (backend/cache.h, backend/kvstore.cpp). */
module KvModel {
  import opened Text
  import opened Status
  import opened ChunkFolder
  import opened LogCodec

  /** From users to their rows. */
  type Table = map<string, Row>

  /** `disk` has a row for every user with a folder; `readCache` and `updatesCache` are the read
      cache and the updates not yet known to be on disk. */
  datatype State = State(
    disk: Table,
    log: Option<string>,
    sequenceId: nat,
    maxSequence: nat,
    readCache: Table,
    updatesCache: Table)

  datatype Answer = Answer(status: Status, value: string)

  const FRESH: State := State(map[], None, 0, 0, map[], map[])

  function RowOf(t: Table, user: string): Row {
    if user in t then t[user] else map[]
  }

  /** `table[user]` of an unordered_map: it creates the row. */
  function Touch(t: Table, user: string): Table {
    t[user := RowOf(t, user)]
  }

  // ---- What a client can see: absent and "" are the same ----

  function ValueOr(row: Row, key: string, default: string): string {
    if key in row then row[key] else default
  }

  function DiskCell(s: State, user: string, key: string): string {
    ValueOr(RowOf(s.disk, user), key, "")
  }

  /** The value of a cell: a pending update, or else what the disk holds. */
  function Cell(s: State, user: string, key: string): string {
    ValueOr(RowOf(s.updatesCache, user), key, DiskCell(s, user, key))
  }

  // ---- Operations of KvCache ----

  /** backend/cache.h:152-183. A miss leaves an empty entry in the read cache. */
  function Gets(s: State, user: string, key: string): (State, Answer) {
    var readCache := Touch(s.readCache, user);
    if key in readCache[user] then
      (s.(readCache := readCache), Answer(Finished, readCache[user][key]))
    else
      var t := s.(readCache := readCache, updatesCache := Touch(s.updatesCache, user));
      if key in t.updatesCache[user] then
        (t, Answer(Finished, t.updatesCache[user][key]))
      else if user !in s.disk then (Remember(t, user, key, ""), Answer(UserError, ""))
      else if key !in s.disk[user] then (Remember(t, user, key, ""), Answer(KeyError, ""))
      else (Remember(t, user, key, s.disk[user][key]), Answer(Finished, s.disk[user][key]))
  }

  function Remember(s: State, user: string, key: string, value: string): State {
    s.(readCache := s.readCache[user := RowOf(s.readCache, user)[key := value]])
  }

  /** backend/cache.h:185-212. */
  function GetsAll(s: State, user: string): (State, Status, Row) {
    if user !in s.disk then (s, UserError, map[])
    else (s.(updatesCache := Touch(s.updatesCache, user)), Finished, Overlay(s.disk[user], RowOf(s.updatesCache, user)))
  }

  /** backend/cache.h:865-887. */
  function WriteCell(s: State, user: string, key: string, value: string): State {
    var row := RowOf(s.readCache, user) - {key};
    s.(updatesCache := s.updatesCache[user := RowOf(s.updatesCache, user)[key := value]],
       readCache := if user !in s.readCache then s.readCache
                else if row == map[] then s.readCache - {user}
                else s.readCache[user := row])
  }

  function Logged(s: State, text: string): State {
    s.(log := Some((if s.log.Some? then s.log.value else "") + text))
  }

  /** An operation must carry the next sequence number (backend/cache.h:889-896). */
  function Puts(s: State, user: string, key: string, value: string, n: nat, logging: bool): (State, Status) {
    if n != s.sequenceId + 1 then (s, SeqError)
    else
      var t := s.(sequenceId := n);
      (WriteCell(if logging then Logged(t, Format(PutEntry(n, user, key, value))) else t, user, key, value), Finished)
  }

  /** backend/cache.h:268-288: deleting writes the empty value. */
  function Dele(s: State, user: string, key: string, n: nat, logging: bool): (State, Status) {
    if n != s.sequenceId + 1 then (s, SeqError)
    else
      var t := s.(sequenceId := n);
      (WriteCell(if logging then Logged(t, Format(DeleEntry(n, user, key))) else t, user, key, ""), Finished)
  }

  /** backend/cache.h:237-266. The sequence number is spent even when the comparison
      fails, and then nothing is logged. */
  function Cputs(s: State, user: string, key: string, prev: string, value: string, n: nat): (State, Status) {
    if n != s.sequenceId + 1 then (s, SeqError)
    else
      var (t, old_) := Gets(s.(sequenceId := n), user, key);
      if old_.status != Finished then (t, old_.status)
      else if old_.value != prev then (t, ValueError)
      else (WriteCell(Logged(t, Format(PutEntry(n, user, key, value))), user, key, value), Finished)
  }

  /** The disk after a checkpoint: users without a folder lose their updates. */
  function CheckpointedDisk(s: State): Table {
    map u | u in s.disk :: Overlay(s.disk[u], RowOf(s.updatesCache, u))
  }

  /** backend/cache.h:290-316. */
  function Checkpointed(s: State): State {
    s.(disk := CheckpointedDisk(s), log := Some(CheckpointLine(s.sequenceId)),
       readCache := map[], updatesCache := map[])
  }

  /** `checkpoint` gets a copy of the cache: the running node sees the new disk and log
      and keeps its own caches (backend/cluster_interface.h:86-98). */
  function CheckpointedByCopy(s: State): State {
    Checkpointed(s).(readCache := s.readCache, updatesCache := s.updatesCache)
  }

  // ---- Commands (backend/kvstore.cpp:72-146) ----

  datatype Command =
    | PutsCmd(usr: string, key: string, value: string)
    | CputCmd(usr: string, key: string, value1: string, value2: string)
    | GetsCmd(usr: string, key: string)
    | DeleCmd(usr: string, key: string)
    | CkptCmd
    | AllCmd(usr: string)

  datatype Reply = Reply(status: Status, value: string, pairs: Row)

  function Plain(status: Status): Reply {
    Reply(status, "", map[])
  }

  /** A first "pwd" entry creates the user's folder. The value read before is thrown
      away, so only the sent comparison value matters (backend/kvstore.cpp:85-98). */
  function WithHome(s: State, user: string, key: string, prev: string): State {
    if key == "pwd" && user !in s.disk && prev == "" then s.(disk := s.disk[user := map[]]) else s
  }

  function Step(s: State, c: Command): (State, Reply) {
    match c
    case PutsCmd(u, k, v) =>
      var n := s.maxSequence + 1;
      var (t, status) := Puts(s.(maxSequence := n), u, k, v, n, true);
      (t, Plain(status))
    case CputCmd(u, k, v1, v2) =>
      var n := s.maxSequence + 1;
      var looked := Gets(s, u, k).0;
      var (t, status) := Cputs(WithHome(looked, u, k, v1).(maxSequence := n), u, k, v1, v2, n);
      (t, Plain(status))
    case GetsCmd(u, k) =>
      var (t, a) := Gets(s, u, k);
      (t, Reply(a.status, a.value, map[]))
    case DeleCmd(u, k) =>
      var n := s.maxSequence + 1;
      var (t, status) := Dele(s.(maxSequence := n), u, k, n, true);
      (t, Plain(status))
    case CkptCmd => (CheckpointedByCopy(s), Plain(Finished))
    case AllCmd(u) =>
      var (t, status, pairs) := GetsAll(s, u);
      (t, Reply(status, "", pairs))
  }

  // ---- The invariant of a running node ----

  /** Read-cache entries never shadow an update and always equal the disk. */
  ghost predicate Coherent(s: State) {
    forall u, k :: k in RowOf(s.readCache, u) ==>
      k !in RowOf(s.updatesCache, u) && RowOf(s.readCache, u)[k] == DiskCell(s, u, k)
  }

  /** No empty value is stored: storing it deletes the key. */
  ghost predicate DiskClean(s: State) {
    forall u, k :: k in RowOf(s.disk, u) ==> RowOf(s.disk, u)[k] != ""
  }

  ghost predicate Running(s: State) {
    Coherent(s) && DiskClean(s) && s.maxSequence == s.sequenceId
  }

  ghost predicate SameView(s: State, t: State) {
    forall u, k :: Cell(s, u, k) == Cell(t, u, k)
  }

  ghost predicate SameRows(a: Table, b: Table) {
    forall u :: RowOf(a, u) == RowOf(b, u)
  }

  lemma RowsDecide(s: State, t: State)
    requires SameRows(s.readCache, t.readCache) && SameRows(s.updatesCache, t.updatesCache)
    requires SameRows(s.disk, t.disk)
    ensures SameView(s, t) && (Coherent(s) ==> Coherent(t)) && (DiskClean(s) ==> DiskClean(t))
  {
  }

  lemma RememberKeeps(s: State, user: string, key: string)
    requires Coherent(s) && key !in RowOf(s.updatesCache, user)
    ensures Coherent(Remember(s, user, key, DiskCell(s, user, key)))
    ensures SameView(s, Remember(s, user, key, DiskCell(s, user, key)))
  {
    var t := Remember(s, user, key, DiskCell(s, user, key));
    forall u, k | k in RowOf(t.readCache, u)
      ensures k !in RowOf(t.updatesCache, u) && RowOf(t.readCache, u)[k] == DiskCell(t, u, k)
    {
      assert (u == user && k == key) || k in RowOf(s.readCache, u);
    }
  }

  /** A read returns the view and changes nothing a client can see; the status differs
      from Finished only for an empty cell. */
  lemma GetsReturnsView(s: State, user: string, key: string)
    requires Coherent(s)
    ensures var (t, a) := Gets(s, user, key);
            && a.value == Cell(s, user, key)
            && (a.status != Finished ==> Cell(s, user, key) == "")
            && Coherent(t) && SameView(s, t)
            && t.disk == s.disk && t.log == s.log
            && t.sequenceId == s.sequenceId && t.maxSequence == s.maxSequence
  {
    hide Coherent, SameView;
    var a := s.(readCache := Touch(s.readCache, user));
    var b := a.(updatesCache := Touch(s.updatesCache, user));
    CachedEntry(s, user, key);
    RowsDecide(s, a);
    RowsDecide(s, b);
    if key !in RowOf(s.updatesCache, user) {
      RememberKeeps(b, user, key);
      SameViewTransitive(s, b, Remember(b, user, key, DiskCell(b, user, key)));
    }
  }

  lemma CachedEntry(s: State, user: string, key: string)
    requires Coherent(s)
    ensures key in RowOf(s.readCache, user) ==>
              key !in RowOf(s.updatesCache, user) && RowOf(s.readCache, user)[key] == DiskCell(s, user, key)
  {
  }

  lemma SameViewTransitive(r: State, s: State, t: State)
    requires SameView(r, s) && SameView(s, t)
    ensures SameView(r, t)
  {
  }

  /** After any read of a cell, reading it again finishes, found or not. */
  lemma SecondGetsFinishes(s: State, user: string, key: string)
    requires Coherent(s)
    ensures Gets(Gets(s, user, key).0, user, key).1 == Answer(Finished, Cell(s, user, key))
  {
    GetsReturnsView(s, user, key);
  }

  /** Writing a cell changes that cell of the view and no other, and the read cache forgets
      that cell and no other. */
  lemma WriteCellWrites(s: State, user: string, key: string, value: string)
    requires Coherent(s)
    ensures var t := WriteCell(s, user, key, value);
            && Coherent(t)
            && t.disk == s.disk && t.log == s.log
            && t.sequenceId == s.sequenceId && t.maxSequence == s.maxSequence
            && (forall u, k :: Cell(t, u, k) == if u == user && k == key then value else Cell(s, u, k))
            && forall u, k :: k in RowOf(t.readCache, u) <==> k in RowOf(s.readCache, u) && !(u == user && k == key)
  {
    var t := WriteCell(s, user, key, value);
    forall u, k | k in RowOf(t.readCache, u)
      ensures k !in RowOf(t.updatesCache, u) && RowOf(t.readCache, u)[k] == DiskCell(t, u, k)
    {
      assert k in RowOf(s.readCache, u) && !(u == user && k == key);
    }
  }

  lemma WithHomeIsInvisible(s: State, user: string, key: string, prev: string)
    requires Coherent(s) && DiskClean(s)
    ensures var t := WithHome(s, user, key, prev);
            Coherent(t) && DiskClean(t) && SameView(s, t) && SameRows(s.disk, t.disk)
  {
    RowsDecide(s, WithHome(s, user, key, prev));
  }

  // ---- What a command does to the view ----

  /** An operation that took a sequence number, as the history records it. */
  datatype Effect =
    | Wrote(user: string, key: string, value: string)
    | Erased(user: string, key: string)
    | Refused

  /** The effect of a command depends on the view alone: a compare-and-put writes if
      and only if the cell holds the expected value, an absent cell counting as "". */
  function EffectOf(s: State, c: Command): Option<Effect> {
    match c
    case PutsCmd(u, k, v) => Some(Wrote(u, k, v))
    case DeleCmd(u, k) => Some(Erased(u, k))
    case CputCmd(u, k, v1, v2) => Some(if Cell(s, u, k) == v1 then Wrote(u, k, v2) else Refused)
    case _ => None
  }

  function AfterEffect(e: Effect, user: string, key: string, before: string): string {
    match e
    case Wrote(u, k, v) => if u == user && k == key then v else before
    case Erased(u, k) => if u == user && k == key then "" else before
    case Refused => before
  }

  function StatusOf(e: Effect): Status {
    if e == Refused then ValueError else Finished
  }

  /** The log line of an effect that is the `n`-th operation. */
  function EntryOf(e: Effect, n: nat): string {
    match e
    case Wrote(u, k, v) => Format(PutEntry(n, u, k, v))
    case Erased(u, k) => Format(DeleEntry(n, u, k))
    case Refused => ""
  }

  lemma OverlayCell(row: Row, updates: Row, key: string)
    requires forall k :: k in row ==> row[k] != ""
    ensures ValueOr(Overlay(row, updates), key, "") == ValueOr(updates, key, ValueOr(row, key, ""))
  {
  }

  lemma LoggedSame(s: State, text: string)
    ensures var t := Logged(s, text); SameView(s, t) && (Coherent(s) ==> Coherent(t))
  {
    RowsDecide(s, Logged(s, text));
  }

  lemma NumberedSame(s: State, n: nat)
    ensures var t := s.(maxSequence := n, sequenceId := n); SameView(s, t) && (Coherent(s) ==> Coherent(t))
  {
    RowsDecide(s, s.(maxSequence := n, sequenceId := n));
  }

  lemma GetsCaches(s: State, user: string, key: string)
    ensures var t := Gets(s, user, key).0; key in RowOf(t.readCache, user) || key in RowOf(t.updatesCache, user)
  {
  }

  lemma CachedFinishes(s: State, user: string, key: string)
    requires key in RowOf(s.readCache, user) || key in RowOf(s.updatesCache, user)
    ensures Gets(s, user, key).1.status == Finished
  {
  }

  /** `run_command` reads the cell before the compare-and-put does, so the second read
      always finishes and yields the view, whether or not the user or key exists. */
  lemma LookedUp(s: State, user: string, key: string, prev: string, n: nat)
    requires Coherent(s) && DiskClean(s)
    ensures var t := WithHome(Gets(s, user, key).0, user, key, prev).(maxSequence := n, sequenceId := n);
            && Gets(t, user, key).1 == Answer(Finished, Cell(s, user, key))
            && Coherent(Gets(t, user, key).0) && DiskClean(Gets(t, user, key).0)
            && SameView(s, Gets(t, user, key).0) && Gets(t, user, key).0.log == s.log
            && SameRows(s.disk, Gets(t, user, key).0.disk)
            && Gets(t, user, key).0.sequenceId == Gets(t, user, key).0.maxSequence == n
            && WithHome(Gets(s, user, key).0, user, key, prev).sequenceId == s.sequenceId
  {
    hide Gets, Coherent, DiskClean;
    var looked := Gets(s, user, key).0;
    GetsReturnsView(s, user, key);
    CleanDisk(s, looked);
    GetsCaches(s, user, key);
    WithHomeIsInvisible(looked, user, key, prev);
    var home := WithHome(looked, user, key, prev);
    NumberedSame(home, n);
    var t := home.(maxSequence := n, sequenceId := n);
    GetsReturnsView(t, user, key);
    CachedFinishes(t, user, key);
    CleanDisk(home, Gets(t, user, key).0);
  }

  lemma CleanDisk(s: State, t: State)
    requires DiskClean(s) && t.disk == s.disk
    ensures DiskClean(t)
  {
  }

  ghost predicate ViewAfter(s: State, t: State, e: Effect) {
    forall u, k :: Cell(t, u, k) == AfterEffect(e, u, k, Cell(s, u, k))
  }

  /** What running a command with an effect means for the whole state. */
  ghost predicate Took(s: State, t: State, e: Effect) {
    && Running(t) && ViewAfter(s, t, e) && SameRows(s.disk, t.disk)
    && t.sequenceId == s.sequenceId + 1
    && t.log == if e == Refused then s.log else Some(LogText(s) + EntryOf(e, s.sequenceId + 1))
  }

  function LogText(s: State): string {
    if s.log.Some? then s.log.value else ""
  }

  lemma WriteTakes(s: State, s0: State, e: Effect)
    requires Running(s) && Coherent(s0) && DiskClean(s0) && SameView(s, s0) && s0.log == s.log
    requires s0.sequenceId == s0.maxSequence == s.sequenceId + 1
    requires e != Refused && SameRows(s.disk, s0.disk)
    ensures var value := if e.Wrote? then e.value else "";
            Took(s, WriteCell(Logged(s0, EntryOf(e, s0.sequenceId)), e.user, e.key, value), e)
  {
    hide WriteCell, Coherent, DiskClean, Format;
    var text, value := EntryOf(e, s0.sequenceId), if e.Wrote? then e.value else "";
    LoggedSame(s0, text);
    var logged := Logged(s0, text);
    WriteCellWrites(logged, e.user, e.key, value);
    var t := WriteCell(logged, e.user, e.key, value);
    CleanDisk(s0, t);
    forall u, k ensures Cell(t, u, k) == AfterEffect(e, u, k, Cell(s, u, k)) {
      assert Cell(s0, u, k) == Cell(s, u, k) && Cell(logged, u, k) == Cell(s0, u, k);
    }
  }

  /** Every command that takes a sequence number does what its effect says; in
      particular compare-and-put is atomic. No live command meets SEQ_ERROR. */
  lemma StepTakesEffect(s: State, c: Command)
    requires Running(s) && EffectOf(s, c).Some?
    ensures var (t, reply) := Step(s, c); var e := EffectOf(s, c).value;
            reply.status == StatusOf(e) && Took(s, t, e)
  {
    hide Gets, WriteCell, WithHome, Coherent, Logged, DiskClean, Format, Took;
    var n, e := s.maxSequence + 1, EffectOf(s, c).value;
    match c
    case PutsCmd(u, k, v) => TakeDirect(s, e);
    case DeleCmd(u, k) => TakeDirect(s, e);
    case CputCmd(u, k, v1, v2) =>
      LookedUp(s, u, k, v1, n);
      var s1 := Gets(WithHome(Gets(s, u, k).0, u, k, v1).(maxSequence := n, sequenceId := n), u, k).0;
      if e == Refused {
        RefusalTakes(s, s1);
      } else {
        WriteTakes(s, s1, e);
        assert EntryOf(e, n) == Format(PutEntry(n, u, k, v2));
      }
  }

  lemma TakeDirect(s: State, e: Effect)
    requires Running(s) && e != Refused
    ensures var n, value := s.sequenceId + 1, if e.Wrote? then e.value else "";
            Took(s, WriteCell(Logged(s.(maxSequence := n, sequenceId := n), EntryOf(e, n)), e.user, e.key, value), e)
  {
    hide Took, WriteCell, Logged;
    var s0 := s.(maxSequence := s.sequenceId + 1, sequenceId := s.sequenceId + 1);
    NumberedSame(s, s.sequenceId + 1);
    CleanDisk(s, s0);
    WriteTakes(s, s0, e);
  }

  lemma RefusalTakes(s: State, t: State)
    requires Coherent(t) && DiskClean(t) && SameView(s, t) && t.log == s.log
    requires t.sequenceId == t.maxSequence == s.sequenceId + 1 && SameRows(s.disk, t.disk)
    ensures Took(s, t, Refused)
  {
  }

  /** Compare-and-put as `run_command` executes it is atomic on the view: it writes
      `value2` and finishes if and only if the cell equals `value1`; otherwise it
      answers VALUE_ERROR, changes no cell and logs nothing. */
  lemma CputIsCompareAndSwap(s: State, user: string, key: string, v1: string, v2: string)
    requires Running(s)
    ensures var (t, reply) := Step(s, CputCmd(user, key, v1, v2));
            && reply.status == (if Cell(s, user, key) == v1 then Finished else ValueError)
            && (forall u, k :: Cell(t, u, k) ==
                  if Cell(s, user, key) == v1 && u == user && k == key then v2 else Cell(s, u, k))
            && (Cell(s, user, key) != v1 ==> t.log == s.log)
            && t.sequenceId == t.maxSequence == s.sequenceId + 1
  {
    hide Step;
    StepTakesEffect(s, CputCmd(user, key, v1, v2));
  }

  // ---- Checkpoints ----

  /** Every user with a non-empty pending update has a folder. */
  ghost predicate Homed(s: State) {
    forall u, k :: k in RowOf(s.updatesCache, u) && RowOf(s.updatesCache, u)[k] != "" ==> u in s.disk
  }

  lemma CheckpointedCell(s: State, user: string, key: string)
    requires DiskClean(s)
    ensures DiskCell(Checkpointed(s), user, key) == if user in s.disk then Cell(s, user, key) else ""
  {
    if user in s.disk {
      assert RowOf(s.disk, user) == s.disk[user];
      assert RowOf(Checkpointed(s).disk, user) == Overlay(s.disk[user], RowOf(s.updatesCache, user));
      OverlayCell(s.disk[user], RowOf(s.updatesCache, user), key);
    }
  }

  /** A checkpoint keeps the view of the running node: its own caches stay and agree
      with the new disk, and so would cleared caches whenever the disk lost nothing. */
  lemma CheckpointKeepsView(s: State)
    requires Running(s)
    ensures SameView(s, CheckpointedByCopy(s)) && Running(CheckpointedByCopy(s))
    ensures Running(Checkpointed(s))
    ensures SameView(s, Checkpointed(s)) <==> Homed(s)
  {
    var kept, cleared := CheckpointedByCopy(s), Checkpointed(s);
    forall u, k { CheckpointedCell(s, u, k); }
    forall u, k ensures Cell(kept, u, k) == Cell(s, u, k) && Cell(cleared, u, k) == DiskCell(kept, u, k) {
    }
    forall u, k | k in RowOf(kept.readCache, u)
      ensures k !in RowOf(kept.updatesCache, u) && RowOf(kept.readCache, u)[k] == DiskCell(kept, u, k)
    {
    }
    forall u, k | k in RowOf(kept.disk, u) ensures RowOf(kept.disk, u)[k] != "" {
      assert RowOf(s.disk, u) == s.disk[u];
    }
    if SameView(s, cleared) {
      forall u, k | k in RowOf(s.updatesCache, u) && RowOf(s.updatesCache, u)[k] != "" ensures u in s.disk {
        assert Cell(s, u, k) == Cell(cleared, u, k);
      }
    }
    if Homed(s) {
      forall u, k ensures Cell(s, u, k) == Cell(cleared, u, k) {
      }
    }
  }

  // ---- Commands without an effect ----

  /** `GetsAll` lists exactly the keys a read of which gives a non-empty value, if and only
      if the user has a folder or has nothing to list: without a folder it answers
      USER_ERROR, whatever is pending. */
  lemma GetsAllListsView(s: State, user: string)
    requires Running(s)
    ensures var (t, status, pairs) := GetsAll(s, user);
            && SameView(s, t) && (status == if user in s.disk then Finished else UserError)
            && (ListsView(s, user, pairs) <==> user in s.disk || forall k :: Cell(s, user, k) == "")
  {
    var (t, status, pairs) := GetsAll(s, user);
    RowsDecide(s, t);
    if user in s.disk {
      assert RowOf(s.disk, user) == s.disk[user];
      forall k ensures (k in pairs <==> Cell(s, user, k) != "") && (k in pairs ==> pairs[k] == Cell(s, user, k)) {
        OverlayCell(s.disk[user], RowOf(s.updatesCache, user), k);
        assert k in pairs ==> pairs[k] != "";
      }
    } else {
      assert pairs == map[];
    }
  }

  ghost predicate ListsView(s: State, user: string, pairs: Row) {
    forall k :: (k in pairs <==> Cell(s, user, k) != "") && (k in pairs ==> pairs[k] == Cell(s, user, k))
  }

  /** The command ALL answers just that: FINISHED exactly for a user with a folder, and the
      pairs a client would read if and only if the user has one or has nothing to list. */
  lemma AllAnswersView(s: State, user: string)
    requires Running(s)
    ensures var (t, reply) := Step(s, AllCmd(user));
            && Running(t) && SameView(s, t)
            && reply.status == (if user in s.disk then Finished else UserError)
            && (ListsView(s, user, reply.pairs) <==> user in s.disk || forall k :: Cell(s, user, k) == "")
  {
    hide Running, SameView;
    GetsAllListsView(s, user);
    StepKeepsView(s, AllCmd(user));
  }

  /** The status of the first read of a cell that is neither cached nor pending: USER_ERROR
      without a folder, KEY_ERROR for an empty cell of a user with one, FINISHED for a
      value. Every other read finishes. */
  lemma FirstReadStatus(s: State, user: string, key: string)
    requires Running(s)
    ensures var (t, reply) := Step(s, GetsCmd(user, key));
            var known := key in RowOf(s.readCache, user) || key in RowOf(s.updatesCache, user);
            && (reply.status == UserError <==> !known && user !in s.disk)
            && (reply.status == KeyError <==> !known && user in s.disk && Cell(s, user, key) == "")
            && (reply.status == Finished <==> known || Cell(s, user, key) != "")
  {
    assert user in s.disk ==> RowOf(s.disk, user) == s.disk[user];
  }

  /** Folders come from compare-and-puts of the key "pwd" that expect the empty value,
      whether they succeed or not, and from nothing else; none ever goes away. */
  lemma FoldersFromSignUp(s: State, c: Command)
    ensures Step(s, c).0.disk.Keys ==
            s.disk.Keys + if c.CputCmd? && c.key == "pwd" && c.value1 == "" then {c.usr} else {}
  {
    hide Gets, Puts, Dele, Cputs, GetsAll;
    var n := s.maxSequence + 1;
    match c
    case PutsCmd(u, k, v) => OperationsKeepDisk(s.(maxSequence := n), u, k, "", v, n);
    case CputCmd(u, k, v1, v2) =>
      OperationsKeepDisk(s, u, k, "", "", n);
      OperationsKeepDisk(WithHome(Gets(s, u, k).0, u, k, v1).(maxSequence := n), u, k, v1, v2, n);
    case GetsCmd(u, k) => OperationsKeepDisk(s, u, k, "", "", n);
    case DeleCmd(u, k) => OperationsKeepDisk(s.(maxSequence := n), u, k, "", "", n);
    case CkptCmd =>
    case AllCmd(u) => ListingKeepsDisk(s, u);
  }

  lemma OperationsKeepDisk(s: State, user: string, key: string, prev: string, value: string, n: nat)
    ensures Gets(s, user, key).0.disk == s.disk
    ensures Puts(s, user, key, value, n, true).0.disk == s.disk
    ensures Dele(s, user, key, n, true).0.disk == s.disk
    ensures Cputs(s, user, key, prev, value, n).0.disk == s.disk
  {
  }

  lemma ListingKeepsDisk(s: State, user: string)
    ensures GetsAll(s, user).0.disk == s.disk
  {
  }

  /** The input on which the listing fails: after a first write by a user who never signed
      up, a read answers the value, and the listing answers USER_ERROR. */
  lemma PendingUserNotListed()
    ensures var s := Step(FRESH, PutsCmd("u", "k", "v")).0;
            && Running(s)
            && Step(s, GetsCmd("u", "k")).1 == Reply(Finished, "v", map[])
            && Step(s, AllCmd("u")).1 == Reply(UserError, "", map[])
  {
    hide Format;
    var s := Step(FRESH, PutsCmd("u", "k", "v")).0;
    assert s.updatesCache == map["u" := map["k" := "v"]] && s.readCache == map[] && s.disk == map[];
    StepTakesEffect(FRESH, PutsCmd("u", "k", "v"));
  }

  /** Reads and checkpoints leave the view and the sequence numbers alone. */
  lemma StepKeepsView(s: State, c: Command)
    requires Running(s) && EffectOf(s, c).None?
    ensures var (t, reply) := Step(s, c);
            && Running(t) && SameView(s, t) && t.sequenceId == s.sequenceId
            && (c != CkptCmd ==> t.disk == s.disk && t.log == s.log)
            && (c.GetsCmd? ==> reply.value == Cell(s, c.usr, c.key))
            && (c == CkptCmd ==> reply.status == Finished)
  {
    hide Gets, Coherent, SameView;
    match c
    case GetsCmd(u, k) =>
      GetsReturnsView(s, u, k);
      CleanDisk(s, Gets(s, u, k).0);
    case AllCmd(u) =>
      var t := GetsAll(s, u).0;
      RowsDecide(s, t);
    case CkptCmd => CheckpointKeepsView(s);
  }
}
