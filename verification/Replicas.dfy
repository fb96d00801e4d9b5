/** Replication: a primary forwards its operations, secondaries execute them, nodes
    fail, come back and synchronise. */
module Replicas {
  import opened Text
  import opened Status
  import opened ChunkFolder
  import opened LogCodec
  import opened KvModel
  import opened History

  // ---- One run of commands on one node ----

  function Run(s: State, cs: seq<Command>): State {
    if cs == [] then s else Step(Run(s, cs[..|cs| - 1]), cs[|cs| - 1]).0
  }

  /** The commands that take a sequence number and are forwarded. */
  predicate IsOperation(c: Command) {
    c.PutsCmd? || c.CputCmd? || c.DeleCmd?
  }

  function Operations(cs: seq<Command>): seq<Command> {
    if cs == [] then []
    else Operations(cs[..|cs| - 1]) + if IsOperation(cs[|cs| - 1]) then [cs[|cs| - 1]] else []
  }

  /** The statuses a node answers to its operations, in order. */
  function Statuses(s: State, cs: seq<Command>): seq<Status> {
    if cs == [] then []
    else
      var front, c := cs[..|cs| - 1], cs[|cs| - 1];
      Statuses(s, front) + if IsOperation(c) then [Step(Run(s, front), c).1.status] else []
  }

  ghost predicate Agree(s: State, t: State) {
    && Running(s) && Running(t) && SameView(s, t)
    && s.sequenceId == t.sequenceId && s.maxSequence == t.maxSequence
  }

  lemma OperationKeepsAgreement(s: State, t: State, c: Command)
    requires Agree(s, t) && IsOperation(c)
    ensures Agree(Step(s, c).0, Step(t, c).0)
    ensures Step(s, c).1.status == Step(t, c).1.status
    ensures Step(s, c).1.status != SeqError
  {
    hide Step, Running;
    StepTakesEffect(s, c);
    StepTakesEffect(t, c);
    assert EffectOf(s, c) == EffectOf(t, c);
    RunningIsAligned(Step(s, c).0);
    RunningIsAligned(Step(t, c).0);
  }

  lemma RunningIsAligned(s: State)
    requires Running(s)
    ensures s.maxSequence == s.sequenceId
  {
  }

  lemma OtherKeepsAgreement(s: State, t: State, c: Command)
    requires Agree(s, t) && !IsOperation(c)
    ensures Agree(Step(s, c).0, t) && Agree(s, Step(t, c).0)
  {
    hide Step, Running;
    StepKeepsView(s, c);
    StepKeepsView(t, c);
    RunningIsAligned(s);
    RunningIsAligned(t);
    RunningIsAligned(Step(s, c).0);
    RunningIsAligned(Step(t, c).0);
    forall u, k ensures Cell(Step(s, c).0, u, k) == Cell(t, u, k) && Cell(s, u, k) == Cell(Step(t, c).0, u, k) {
      assert Cell(s, u, k) == Cell(t, u, k);
    }
  }

  /** Replica agreement: two nodes that agree and execute the same operations in the
      same order agree afterwards and answer the same statuses, wherever each of them
      serves reads or takes checkpoints in between. */
  lemma {:induction false} ReplicasAgree(s: State, t: State, cs: seq<Command>, ds: seq<Command>)
    requires Agree(s, t) && Operations(cs) == Operations(ds)
    ensures Agree(Run(s, cs), Run(t, ds)) && Statuses(s, cs) == Statuses(t, ds)
    ensures SeqError !in Statuses(s, cs)
    decreases |cs| + |ds|
  {
    hide Step, Agree;
    if cs != [] && !IsOperation(cs[|cs| - 1]) {
      var front := cs[..|cs| - 1];
      ReplicasAgree(s, t, front, ds);
      OtherKeepsAgreement(Run(s, front), Run(t, ds), cs[|cs| - 1]);
    } else if ds != [] && !IsOperation(ds[|ds| - 1]) {
      var front := ds[..|ds| - 1];
      ReplicasAgree(s, t, cs, front);
      OtherKeepsAgreement(Run(s, cs), Run(t, front), ds[|ds| - 1]);
    } else if cs != [] && ds != [] {
      var a, b, c := cs[..|cs| - 1], ds[..|ds| - 1], cs[|cs| - 1];
      assert Operations(cs)[..|Operations(cs)| - 1] == Operations(a);
      assert Operations(ds)[..|Operations(ds)| - 1] == Operations(b);
      assert Operations(cs)[|Operations(cs)| - 1] == c && Operations(ds)[|Operations(ds)| - 1] == ds[|ds| - 1];
      ReplicasAgree(s, t, a, b);
      OperationKeepsAgreement(Run(s, a), Run(t, b), c);
    }
  }

  // ---- What the primary executes and forwards (backend/kvstore.cpp:189-208) ----

  /** The primary takes a checkpoint after every 20th message of its clock. */
  function Executed(cs: seq<Command>, clock: nat): seq<Command> {
    if cs == [] then []
    else
      Executed(cs[..|cs| - 1], clock) + [cs[|cs| - 1]] +
      if (clock + |cs|) % 20 == 0 then [CkptCmd] else []
  }

  /** Reads are not forwarded; a checkpoint is, before it is taken. */
  function Forwarded(cs: seq<Command>): seq<Command> {
    if cs == [] then []
    else Forwarded(cs[..|cs| - 1]) + if IsOperation(cs[|cs| - 1]) || cs[|cs| - 1].CkptCmd? then [cs[|cs| - 1]] else []
  }

  lemma {:induction false} ForwardedOperations(cs: seq<Command>)
    ensures Operations(Forwarded(cs)) == Operations(cs)
  {
    if cs != [] {
      var front, c := cs[..|cs| - 1], cs[|cs| - 1];
      ForwardedOperations(front);
      assert (Forwarded(front) + [c])[..|Forwarded(front)|] == Forwarded(front);
      assert Forwarded(front) + [] == Forwarded(front);
    }
  }

  function Checkpoints(cs: seq<Command>): nat {
    if cs == [] then 0 else Checkpoints(cs[..|cs| - 1]) + if cs[|cs| - 1].CkptCmd? then 1 else 0
  }

  function WithoutCheckpoints(cs: seq<Command>): seq<Command> {
    if cs == [] then []
    else WithoutCheckpoints(cs[..|cs| - 1]) + if cs[|cs| - 1].CkptCmd? then [] else [cs[|cs| - 1]]
  }

  lemma CheckpointsSnoc(cs: seq<Command>, c: Command)
    ensures Checkpoints(cs + [c]) == Checkpoints(cs) + if c.CkptCmd? then 1 else 0
    ensures WithoutCheckpoints(cs + [c]) == WithoutCheckpoints(cs) + if c.CkptCmd? then [] else [c]
    ensures Forwarded(cs + [c]) == Forwarded(cs) + if IsOperation(c) || c.CkptCmd? then [c] else []
  {
    assert (cs + [c])[..|cs|] == cs;
  }

  /** The primary executes exactly the requests, in order, and one checkpoint of its own a
      20th message. It forwards its operations and its checkpoints, and nothing else. */
  lemma {:induction false} ExecutesRequests(requests: seq<Command>, clock: nat)
    requires Checkpoints(requests) == 0
    ensures var executed := Executed(requests, clock);
            && WithoutCheckpoints(executed) == requests
            && Checkpoints(executed) == (clock + |requests|) / 20 - clock / 20
  {
    if requests != [] {
      var front, c := requests[..|requests| - 1], requests[|requests| - 1];
      ExecutesRequests(front, clock);
      CheckpointsSnoc(Executed(front, clock), c);
      CheckpointsSnoc(Executed(front, clock) + [c], CkptCmd);
      assert Executed(front, clock) + [c] + [] == Executed(front, clock) + [c];
      assert front + [] == front && front + [c] == requests && front + [c] + [] == requests;
    }
  }

  lemma {:induction false} ForwardsOnly(cs: seq<Command>)
    ensures Operations(Forwarded(cs)) == Operations(cs) && Checkpoints(Forwarded(cs)) == Checkpoints(cs)
    ensures |Forwarded(cs)| == |Operations(cs)| + Checkpoints(cs)
  {
    ForwardedOperations(cs);
    if cs != [] {
      var front, c := cs[..|cs| - 1], cs[|cs| - 1];
      ForwardsOnly(front);
      CheckpointsSnoc(Forwarded(front), c);
      assert Forwarded(front) + [] == Forwarded(front);
    }
  }

  /** A secondary that executes what the primary forwards agrees with it at every point
      of the primary's run. */
  lemma SecondaryFollowsPrimary(primary: State, secondary: State, requests: seq<Command>, clock: nat)
    requires Agree(primary, secondary)
    ensures var executed := Executed(requests, clock);
            && Agree(Run(primary, executed), Run(secondary, Forwarded(executed)))
            && Statuses(primary, executed) == Statuses(secondary, Forwarded(executed))
  {
    var executed := Executed(requests, clock);
    ForwardedOperations(executed);
    ReplicasAgree(primary, secondary, executed, Forwarded(executed));
  }

  // ---- A cluster of nodes over whole runs ----

  /** A node with its state; a node that is down keeps only disk and log. */
  datatype Member = Member(state: State, up: bool)

  datatype Event =
    | Operate(c: Command)           // executed by every node that is up
    | Locally(i: nat, c: Command)   // a read or checkpoint on one node
    | Fail(i: nat)
    | Restart(i: nat)               // from the own log, as a primary
    | Rejoin(i: nat, from: nat, messages: seq<string>) // by synchronising with a node that is up

  function Apply(ms: seq<Member>, e: Event): seq<Member> {
    match e
    case Operate(c) =>
      seq(|ms|, i requires 0 <= i < |ms| => if ms[i].up then Member(Step(ms[i].state, c).0, true) else ms[i])
    case Locally(i, c) =>
      if i < |ms| && ms[i].up then ms[i := Member(Step(ms[i].state, c).0, true)] else ms
    case Fail(i) =>
      if i < |ms| then ms[i := ms[i].(up := false)] else ms
    case Restart(i) =>
      if i < |ms| && !ms[i].up then
        var (t, status) := InitCacheForPrimary(ms[i].state);
        ms[i := Member(t, status == Finished)]
      else ms
    case Rejoin(i, from, messages) =>
      if i < |ms| && from < |ms| && !ms[i].up && ms[from].up then
        var (t, status) := RecoverFromPrimary(ms[i].state, ms[from].state.log, messages);
        ms[i := Member(t, status == Finished)]
      else ms
  }

  /** What a node has executed, where its log starts, and how far its disk is. The nodes
      that are up have all executed the cluster's history; a node that is down may have
      missed operations, or executed some that the cluster lost. */
  datatype Progress = Progress(mine: seq<Effect>, from: nat, disk: nat)

  ghost predicate MemberOk(m: Member, h: seq<Effect>, g: Progress) {
    && OnDisk(m.state, g.mine, g.from, g.disk)
    && (m.up ==> g.mine == h && Live(m.state, h) && Persisted(m.state, h, g.from, g.disk))
  }

  ghost predicate ClusterOk(ms: seq<Member>, h: seq<Effect>, gs: seq<Progress>) {
    |gs| == |ms| && forall i :: 0 <= i < |ms| ==> MemberOk(ms[i], h, gs[i])
  }

  /** The operation that a running node would record; all running nodes record the same. */
  predicate CommandOk(c: Command) {
    match c
    case PutsCmd(u, k, v) => EffectOk(Wrote(u, k, v))
    case CputCmd(u, k, v1, v2) => EffectOk(Wrote(u, k, v2))
    case DeleCmd(u, k) => EffectOk(Erased(u, k))
    case _ => true
  }

  /** What a caller can check before an event: some node is up to take an operation, a
      checkpointing node has its users' folders, and a log is replayed only when it lost
      nothing since its checkpoint. A node that restarts alone, with none up, may have
      missed operations; while others are up it may not. A node rejoins by a full
      synchronisation only when the transfer can carry all names, and otherwise only with a
      snapshot that the cluster's history passed (`History.StaleRestartDiverges` shows why). */
  ghost predicate Allowed(ms: seq<Member>, e: Event, h: seq<Effect>, gs: seq<Progress>)
    requires |gs| == |ms|
  {
    match e
    case Operate(c) => IsOperation(c) && CommandOk(c) && |h| < INT_MAX && AnyUp(ms)
    case Locally(i, c) => !IsOperation(c) && (i < |ms| && ms[i].up && c == CkptCmd ==> Homed(ms[i].state))
    case Fail(i) => true
    case Restart(i) =>
      i < |ms| && !ms[i].up ==>
        && NothingLostSince(gs[i].mine, gs[i].from) && (ms[i].state.log.None? ==> ms[i].state == FRESH)
        && (AnyUp(ms) ==> gs[i].mine == h)
    case Rejoin(i, from, messages) =>
      i < |ms| && from < |ms| && !ms[i].up && ms[from].up ==>
        && NothingLostSince(h, gs[from].from)
        && if gs[from].from > gs[i].from then
             Sends(ms[from].state, messages) && CarriedUsers(ms[from].state.disk)
           else SameUntil(gs[i].disk, gs[i].mine, h)
  }

  predicate AnyUp(ms: seq<Member>) {
    exists i :: 0 <= i < |ms| && ms[i].up
  }

  /** The bookkeeping after an event: an operation extends the history by the effect
      that any running node gives it; a node that restarts alone takes the cluster back to
      its own history. */
  ghost function Book(ms: seq<Member>, e: Event, h: seq<Effect>, gs: seq<Progress>): (seq<Effect>, seq<Progress>)
    requires |gs| == |ms| && Allowed(ms, e, h, gs)
  {
    match e
    case Operate(c) =>
      var i :| 0 <= i < |ms| && ms[i].up;
      var more := h + [EffectOf(ms[i].state, c).value];
      (more, seq(|ms|, j requires 0 <= j < |ms| =>
                         if ms[j].up then Progress(more, gs[j].from, gs[j].disk) else gs[j]))
    case Locally(i, c) =>
      (h, if i < |ms| && ms[i].up && c == CkptCmd then gs[i := Progress(h, |h|, |h|)] else gs)
    case Fail(i) => (h, gs)
    case Restart(i) => (if i < |ms| && !ms[i].up then gs[i].mine else h, gs)
    case Rejoin(i, from, _) =>
      (h, if i < |ms| && from < |ms| && !ms[i].up && ms[from].up then
            gs[i := Progress(h, gs[from].from, if gs[from].from > gs[i].from then gs[from].disk else gs[i].disk)]
          else gs)
  }

  lemma OperateMember(m: Member, h: seq<Effect>, g: Progress, c: Command, e: Effect)
    requires MemberOk(m, h, g) && m.up && IsOperation(c) && |h| < INT_MAX && EffectOk(e)
    requires EffectOf(m.state, c) == Some(e)
    ensures MemberOk(Member(Step(m.state, c).0, true), h + [e], Progress(h + [e], g.from, g.disk))
  {
    hide Step, Persisted, Live;
    StepExtendsHistory(m.state, c, h, g.from, g.disk);
  }

  lemma SameEffect(s: State, t: State, h: seq<Effect>, c: Command)
    requires Live(s, h) && Live(t, h)
    ensures EffectOf(s, c) == EffectOf(t, c)
  {
  }

  lemma OperateCluster(ms: seq<Member>, c: Command, h: seq<Effect>, gs: seq<Progress>)
    requires ClusterOk(ms, h, gs) && Allowed(ms, Operate(c), h, gs)
    ensures var (h', gs') := Book(ms, Operate(c), h, gs); ClusterOk(Apply(ms, Operate(c)), h', gs')
  {
    hide Step, Persisted, OnDisk;
    var (h', gs') := Book(ms, Operate(c), h, gs);
    var effect := h'[|h|];
    forall j | 0 <= j < |ms| ensures MemberOk(Apply(ms, Operate(c))[j], h', gs'[j]) {
      if ms[j].up {
        var i :| 0 <= i < |ms| && ms[i].up && effect == EffectOf(ms[i].state, c).value;
        SameEffect(ms[i].state, ms[j].state, h, c);
        OperateMember(ms[j], h, gs[j], c, effect);
      }
    }
  }

  lemma LocalMember(m: Member, c: Command, h: seq<Effect>, g: Progress)
    requires MemberOk(m, h, g) && m.up && !IsOperation(c) && (c == CkptCmd ==> Homed(m.state))
    ensures MemberOk(Member(Step(m.state, c).0, true), h, if c == CkptCmd then Progress(h, |h|, |h|) else g)
  {
    hide Persisted, Live;
    if c == CkptCmd {
      CheckpointAdvances(m.state, h, g.from, g.disk);
    } else {
      ReadKeepsHistory(m.state, c, h, g.from, g.disk);
    }
  }

  lemma RestartMember(m: Member, h: seq<Effect>, g: Progress)
    requires MemberOk(m, h, g) && NothingLostSince(g.mine, g.from)
    requires m.state.log.None? ==> m.state == FRESH
    ensures var (t, status) := InitCacheForPrimary(m.state); MemberOk(Member(t, status == Finished), g.mine, g)
  {
    hide ReplayLoggings, Live, NothingLostSince, Persisted;
    if m.state.log.None? {
      LoggedWhenPersisted(m.state, g);
      FirstStart(m.state);
    } else {
      RestartRestores(m.state, g.mine, g.from, g.disk);
    }
  }

  lemma LoggedWhenPersisted(s: State, g: Progress)
    requires OnDisk(s, g.mine, g.from, g.disk) && s.log.None?
    ensures Blank(s) && g.mine == [] && g.from == g.disk == 0
  {
  }

  lemma RejoinMember(m: Member, primary: Member, messages: seq<string>, h: seq<Effect>, g: Progress, gp: Progress)
    requires MemberOk(m, h, g) && !m.up
    requires MemberOk(primary, h, gp) && primary.up && NothingLostSince(h, gp.from)
    requires if gp.from > g.from then Sends(primary.state, messages) && CarriedUsers(primary.state.disk)
             else SameUntil(g.disk, g.mine, h)
    ensures var (t, status) := RecoverFromPrimary(m.state, primary.state.log, messages);
            MemberOk(Member(t, status == Finished), h,
                     Progress(h, gp.from, if gp.from > g.from then gp.disk else g.disk))
  {
    hide RecoverFromPrimary, Live, NothingLostSince, Persisted, Sends, CarriedUsers;
    RecoveryAgrees(m.state, primary.state, messages, g.mine, h, g.from, g.disk, gp.from, gp.disk);
  }

  /** No node is up, so the cluster's history may be any other one. */
  lemma OthersDown(m: Member, h: seq<Effect>, other: seq<Effect>, g: Progress)
    requires MemberOk(m, h, g) && !m.up
    ensures MemberOk(m, other, g)
  {
  }

  lemma RestartCluster(ms: seq<Member>, i: nat, h: seq<Effect>, gs: seq<Progress>)
    requires ClusterOk(ms, h, gs) && Allowed(ms, Restart(i), h, gs) && i < |ms| && !ms[i].up
    ensures ClusterOk(Apply(ms, Restart(i)), gs[i].mine, gs)
  {
    hide Persisted, Live, OnDisk, InitCacheForPrimary, NothingLostSince;
    RestartMember(ms[i], h, gs[i]);
    forall j | 0 <= j < |ms| && j != i ensures MemberOk(ms[j], gs[i].mine, gs[j]) {
      if ms[j].up {
        assert AnyUp(ms);
      } else {
        OthersDown(ms[j], h, gs[i].mine, gs[j]);
      }
    }
  }

  /** Every allowed event keeps the cluster's invariant. */
  lemma EventKeepsClusterOk(ms: seq<Member>, e: Event, h: seq<Effect>, gs: seq<Progress>)
    requires ClusterOk(ms, h, gs) && Allowed(ms, e, h, gs)
    ensures var (h', gs') := Book(ms, e, h, gs); ClusterOk(Apply(ms, e), h', gs')
  {
    hide Step, Persisted, Live, OnDisk, RecoverFromPrimary, InitCacheForPrimary, NothingLostSince, Sends, CarriedUsers;
    match e
    case Operate(c) => OperateCluster(ms, c, h, gs);
    case Locally(i, c) =>
      if i < |ms| && ms[i].up {
        LocalMember(ms[i], c, h, gs[i]);
      }
    case Fail(i) =>
    case Restart(i) =>
      if i < |ms| && !ms[i].up {
        RestartCluster(ms, i, h, gs);
      }
    case Rejoin(i, from, messages) =>
      if i < |ms| && from < |ms| && !ms[i].up && ms[from].up {
        RejoinMember(ms[i], ms[from], messages, h, gs[i], gs[from]);
      }
  }

  /** What an allowed event does: an operation takes its effect on the history of all nodes
      that are up, a failed node is down, and a node that restarts or rejoins is up again;
      it keeps the history that `Book` says, and all other nodes stay up or down. */
  lemma EventTakesEffect(ms: seq<Member>, e: Event, h: seq<Effect>, gs: seq<Progress>)
    requires ClusterOk(ms, h, gs) && Allowed(ms, e, h, gs)
    ensures var after, (h', gs') := Apply(ms, e), Book(ms, e, h, gs);
            && |after| == |ms|
            && (forall i :: 0 <= i < |ms| ==>
                  (after[i].up <==> match e
                                    case Fail(j) => ms[i].up && i != j
                                    case Restart(j) => ms[i].up || i == j
                                    case Rejoin(j, from, _) => ms[i].up || (i == j && from < |ms| && ms[from].up)
                                    case _ => ms[i].up))
            && match e
               case Operate(c) =>
                 |h'| == |h| + 1 && h'[..|h|] == h &&
                 forall i :: 0 <= i < |ms| && ms[i].up ==> EffectOf(ms[i].state, c) == Some(h'[|h|])
               case Restart(j) => h' == if j < |ms| && !ms[j].up then gs[j].mine else h
               case _ => h' == h
  {
    hide Step, Persisted, Live, OnDisk, RecoverFromPrimary, InitCacheForPrimary, NothingLostSince, Sends, CarriedUsers;
    match e
    case Operate(c) => OperationRecorded(ms, c, h, gs);
    case Restart(j) =>
      if j < |ms| && !ms[j].up {
        RestartFinishes(ms[j], h, gs[j]);
      }
    case Rejoin(j, from, messages) =>
      if j < |ms| && from < |ms| && !ms[j].up && ms[from].up {
        RejoinFinishes(ms[j], ms[from], messages, h, gs[j], gs[from]);
      }
    case _ =>
  }

  lemma OperationRecorded(ms: seq<Member>, c: Command, h: seq<Effect>, gs: seq<Progress>)
    requires ClusterOk(ms, h, gs) && Allowed(ms, Operate(c), h, gs)
    ensures var h' := Book(ms, Operate(c), h, gs).0;
            && |h'| == |h| + 1 && h'[..|h|] == h
            && forall i :: 0 <= i < |ms| && ms[i].up ==> EffectOf(ms[i].state, c) == Some(h'[|h|])
  {
    hide Step, Persisted, OnDisk;
    var h' := Book(ms, Operate(c), h, gs).0;
    var effect := h'[|h|];
    forall i | 0 <= i < |ms| && ms[i].up ensures EffectOf(ms[i].state, c) == Some(effect) {
      var j :| 0 <= j < |ms| && ms[j].up && effect == EffectOf(ms[j].state, c).value;
      assert MemberOk(ms[i], h, gs[i]) && MemberOk(ms[j], h, gs[j]);
      SameEffect(ms[i].state, ms[j].state, h, c);
    }
  }

  lemma RestartFinishes(m: Member, h: seq<Effect>, g: Progress)
    requires MemberOk(m, h, g) && NothingLostSince(g.mine, g.from)
    requires m.state.log.None? ==> m.state == FRESH
    ensures InitCacheForPrimary(m.state).1 == Finished
  {
    hide ReplayLoggings, Live, NothingLostSince, Persisted;
    if m.state.log.Some? {
      RestartRestores(m.state, g.mine, g.from, g.disk);
    }
  }

  lemma RejoinFinishes(m: Member, primary: Member, messages: seq<string>, h: seq<Effect>, g: Progress, gp: Progress)
    requires MemberOk(m, h, g) && !m.up
    requires MemberOk(primary, h, gp) && primary.up && NothingLostSince(h, gp.from)
    requires if gp.from > g.from then Sends(primary.state, messages) && CarriedUsers(primary.state.disk)
             else SameUntil(g.disk, g.mine, h)
    ensures RecoverFromPrimary(m.state, primary.state.log, messages).1 == Finished
  {
    hide RecoverFromPrimary, Live, NothingLostSince, Persisted, Sends, CarriedUsers;
    RecoveryAgrees(m.state, primary.state, messages, g.mine, h, g.from, g.disk, gp.from, gp.disk);
  }

  // ---- Whole runs ----

  ghost predicate AllAllowed(ms: seq<Member>, h: seq<Effect>, gs: seq<Progress>, events: seq<Event>)
    requires |gs| == |ms|
    decreases |events|
  {
    events != [] ==>
      && Allowed(ms, events[0], h, gs)
      && var (h', gs') := Book(ms, events[0], h, gs); AllAllowed(Apply(ms, events[0]), h', gs', events[1..])
  }

  function ApplyAll(ms: seq<Member>, events: seq<Event>): seq<Member>
    decreases |events|
  {
    if events == [] then ms else ApplyAll(Apply(ms, events[0]), events[1..])
  }

  lemma {:induction false} RunKeepsClusterOk(ms: seq<Member>, h: seq<Effect>, gs: seq<Progress>, events: seq<Event>)
    returns (h': seq<Effect>, gs': seq<Progress>)
    requires ClusterOk(ms, h, gs) && AllAllowed(ms, h, gs, events)
    ensures ClusterOk(ApplyAll(ms, events), h', gs')
    decreases |events|
  {
    hide Allowed, MemberOk;
    if events == [] {
      h', gs' := h, gs;
    } else {
      EventKeepsClusterOk(ms, events[0], h, gs);
      var (h1, gs1) := Book(ms, events[0], h, gs);
      h', gs' := RunKeepsClusterOk(Apply(ms, events[0]), h1, gs1, events[1..]);
    }
  }

  /** Safety over whole runs: however operations, reads, checkpoints, failures, restarts
      and synchronisations are interleaved, from a cluster of fresh nodes on, any two
      nodes that are up show the same value in every cell and have the same sequence
      number. That includes runs in which a node that missed operations restarts alone and
      the cluster goes on from there. */
  lemma RunningNodesAgree(n: nat, events: seq<Event>, i: nat, j: nat)
    requires var ms := seq(n, _ => Member(FRESH, false)); var gs := seq(n, _ => Progress([], 0, 0));
             AllAllowed(ms, [], gs, events)
    requires var ms := ApplyAll(seq(n, _ => Member(FRESH, false)), events);
             i < |ms| && j < |ms| && ms[i].up && ms[j].up
    ensures var ms := ApplyAll(seq(n, _ => Member(FRESH, false)), events);
            Agree(ms[i].state, ms[j].state)
  {
    var ms, gs := seq(n, _ => Member(FRESH, false)), seq(n, _ => Progress([], 0, 0));
    assert ClusterOk(ms, [], gs);
    var h', gs' := RunKeepsClusterOk(ms, [], gs, events);
    LiveNodesAgree(ApplyAll(ms, events)[i].state, ApplyAll(ms, events)[j].state, h');
  }

  lemma LiveNodesAgree(s: State, t: State, h: seq<Effect>)
    requires Live(s, h) && Live(t, h)
    ensures Agree(s, t)
  {
    hide After;
    RunningIsAligned(s);
    RunningIsAligned(t);
    forall u, k ensures Cell(s, u, k) == Cell(t, u, k) {
      assert Cell(s, u, k) == After(h, u, k);
    }
  }
}
