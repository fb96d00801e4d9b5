/** The process of backend/kvstore.cpp: commands arrive one at a time, the primary
    forwards operations and takes a checkpoint every 20 messages. */
module KvNode {
  import opened Text
  import opened Status
  import opened ChunkFolder
  import opened ChunkStore
  import opened KvModel
  import opened History
  import opened Replicas
  import opened KvCaches
  import opened NodeRole
  import opened SizeBounds
  import opened SyncMessages

  /** Keys without a newline, as the chunk files need them. */
  predicate KeyOk(c: Command) {
    (c.PutsCmd? || c.CputCmd? || c.DeleCmd?) ==> NoNewline(c.key)
  }

  /** A primary forwards operations; the first of the group forwards checkpoints. */
  function ForwardedBy(c: Command, isPrimary: bool, isFirst: bool): seq<Command> {
    if (IsOperation(c) && isPrimary) || (c.CkptCmd? && isFirst) then [c] else []
  }

  class Node {
    const disk: Disk
    const globals: Globals
    const cache: KvCache
    const myPort: int
    // The ports of the alive nodes of the group, the primary first.
    var secondary: seq<int>
    // What was forwarded to the secondaries so far.
    var outbox: seq<Command>
    var lastCheckpointTime: nat

    constructor (port: int)
      ensures Valid() && cache.Abs() == FRESH && Flags() == STARTED
      ensures forall slack: nat :: Bounded(slack)
      ensures secondary == [] && outbox == [] && lastCheckpointTime == 1
      ensures fresh(disk) && fresh(globals) && fresh(cache)
    {
      var d := new Disk();
      var g := new Globals();
      disk, globals := d, g;
      cache := new KvCache(d, g);
      myPort, secondary, outbox, lastCheckpointTime := port, [], [], 1;
    }

    ghost predicate Valid()
      reads this, disk, cache
    {
      cache.disk == disk && cache.globals == globals && cache.Valid()
    }

    /** No chunk file and no pending record is too large. */
    ghost predicate SizesBounded(slack: nat)
      reads disk, cache
    {
      AllSizesOk(disk.folders, slack) && UpdatesFit(cache.updatesCache, slack)
    }

    /** Nor is any record in the log. */
    ghost predicate Bounded(slack: nat)
      reads disk, cache
    {
      SizesBounded(slack) && LogBounded(disk.log, slack)
    }

    ghost function Flags(): Role
      reads globals
    {
      Role(globals.isPrimary, globals.killed)
    }

    predicate IsFirst()
      reads `secondary
    {
      secondary != [] && secondary[0] == myPort
    }

    /** backend/cluster_interface.h:86-98: the copy writes disk and log, the cache keeps
        its maps. */
    method Checkpoint(ghost slack: nat)
      requires Valid()
      modifies disk, `outbox
      ensures Valid() && cache.Abs() == CheckpointedByCopy(old(cache.Abs()))
      ensures old(SizesBounded(slack)) ==> SizesBounded(slack)
      ensures outbox == old(outbox) + if IsFirst() then [CkptCmd] else []
    {
      hide FoldersOk, DiskTable, CheckpointedDisk, UpdatesFit, AllSizesOk;
      if IsFirst() {
        outbox := outbox + [CkptCmd];
      }
      var copy := new KvCache.Copy(cache);
      var res := copy.Checkpoint(slack);
    }

    /** A user's folder is created by the first "pwd" entry (backend/kvstore.cpp:94-98). */
    method CreateHome(user: string, key: string, prev: string)
      requires Valid()
      modifies disk`folders
      ensures Valid() && cache.Abs() == WithHome(old(cache.Abs()), user, key, prev)
      ensures forall slack: nat :: AllSizesOk(old(disk.folders), slack) ==> AllSizesOk(disk.folders, slack)
    {
      hide FolderOk, Contents;
      if key == "pwd" && user !in disk.folders && prev == "" {
        EmptyFolderOk();
        disk.folders := disk.folders[user := map[]];
        assert DiskTable(disk.folders) == DiskTable(old(disk.folders))[user := map[]];
      }
    }

    /** backend/kvstore.cpp:81-105. */
    method Cput(user: string, key: string, value1: string, value2: string) returns (ret: Status)
      requires Valid() && NoNewline(key)
      modifies cache, disk, globals`maxSequence
      ensures Valid()
      ensures (cache.Abs(), Plain(ret)) == Step(old(cache.Abs()), CputCmd(user, key, value1, value2))
      ensures forall slack: nat :: AllSizesOk(old(disk.folders), slack) ==> AllSizesOk(disk.folders, slack)
    {
      hide FoldersOk, DiskTable, WithHome, KvModel.Gets, KvModel.Cputs, AllSizesOk;
      var looked, oldValue := cache.Gets(user, key);
      CreateHome(user, key, value1);
      globals.maxSequence := globals.maxSequence + 1;
      ret := cache.Cputs(user, key, value1, value2, globals.maxSequence);
    }

    /** backend/kvstore.cpp:13-152 for the commands that work on the cache. A killed node
        ignores them. */
    method RunCommand(c: Command, ghost slack: nat) returns (reply: Reply)
      requires Valid() && KeyOk(c)
      modifies cache, disk, globals`maxSequence, `outbox
      ensures Valid()
      ensures globals.killed ==> cache.Abs() == old(cache.Abs())
      ensures !globals.killed ==> (cache.Abs(), reply) == Step(old(cache.Abs()), c)
      ensures outbox == old(outbox) + if globals.killed then [] else ForwardedBy(c, globals.isPrimary, IsFirst())
      ensures globals.killed || c.GetsCmd? || c.AllCmd? || (!globals.isPrimary && !IsFirst()) ==> outbox == old(outbox)
      ensures IsOperation(c) && !globals.killed ==>
                outbox == if globals.isPrimary then old(outbox) + [c] else old(outbox)
      ensures old(SizesBounded(slack)) && CommandFits(c, slack) ==> SizesBounded(slack)
      ensures old(Bounded(slack)) && CommandFits(c, slack) && CommandReadable(c) ==> Bounded(slack)
    {
      reply := Execute(c, slack);
      StepStaysBounded(old(cache.Abs()), c, slack);
    }

    /** The same, with what it leaves of the size bound on disk. */
    method Execute(c: Command, ghost slack: nat) returns (reply: Reply)
      requires Valid() && KeyOk(c)
      modifies cache, disk, globals`maxSequence, `outbox
      ensures Valid()
      ensures globals.killed ==> cache.Abs() == old(cache.Abs())
      ensures !globals.killed ==> (cache.Abs(), reply) == Step(old(cache.Abs()), c)
      ensures outbox == old(outbox) + if globals.killed then [] else ForwardedBy(c, globals.isPrimary, IsFirst())
      ensures old(SizesBounded(slack)) ==> AllSizesOk(disk.folders, slack)
    {
      hide FoldersOk, DiskTable, WithHome, KvModel.Gets, KvModel.Cputs, KvModel.Puts, KvModel.Dele, KvModel.GetsAll,
           CheckpointedByCopy, AllSizesOk, UpdatesFit;
      reply := Plain(Finished);
      if globals.killed {
        return;
      }
      if IsOperation(c) && globals.isPrimary {
        outbox := outbox + [c];
      }
      match c
      case PutsCmd(user, key, value) =>
        globals.maxSequence := globals.maxSequence + 1;
        var res := cache.Puts(user, key, value, globals.maxSequence, true);
        reply := Plain(res);
      case CputCmd(user, key, value1, value2) =>
        var res := Cput(user, key, value1, value2);
        reply := Plain(res);
      case GetsCmd(user, key) =>
        var res, value := cache.Gets(user, key);
        reply := Reply(res, value, map[]);
      case DeleCmd(user, key) =>
        globals.maxSequence := globals.maxSequence + 1;
        var res := cache.Dele(user, key, globals.maxSequence, true);
        reply := Plain(res);
      case CkptCmd =>
        Checkpoint(slack);
      case AllCmd(user) =>
        var res, pairs := cache.GetsAll(user);
        reply := Reply(res, "", pairs);
    }

    /** backend/kvstore.cpp:189-208 on the primary of a group: the message itself, and a
        checkpoint when its clock says so. */
    method HandleMessage(c: Command, ghost slack: nat) returns (reply: Reply)
      requires Valid() && KeyOk(c) && globals.isPrimary && !globals.killed && IsFirst()
      modifies cache, disk, globals`maxSequence, `outbox, `lastCheckpointTime
      ensures Valid() && IsFirst()
      ensures cache.Abs() == Run(old(cache.Abs()), Executed([c], old(lastCheckpointTime)))
      ensures outbox == old(outbox) + Forwarded(Executed([c], old(lastCheckpointTime)))
      ensures reply == Step(old(cache.Abs()), c).1 && lastCheckpointTime == old(lastCheckpointTime) + 1
      ensures old(Bounded(slack)) && CommandFits(c, slack) && CommandReadable(c) ==> Bounded(slack)
    {
      hide FoldersOk, DiskTable, Step, CheckpointedByCopy, Run, Executed, Forwarded, AllSizesOk, UpdatesFit, LogBounded,
           CommandFits, CommandReadable;
      lastCheckpointTime := lastCheckpointTime + 1;
      reply := RunCommand(c, slack);
      OneMessage(old(cache.Abs()), c, old(lastCheckpointTime));
      if lastCheckpointTime % 20 == 0 {
        StepCheckpoints(cache.Abs());
        CheckpointLogBounded(cache.Abs(), slack);
        Checkpoint(slack);
      }
    }

    /** backend/cluster_interface.h:11-23. */
    method ParseSecondaryFromMaster(ports: seq<int>)
      requires ports != []
      modifies globals`isPrimary, `secondary
      ensures Flags() == OnCluster(old(Flags()), myPort, ports) && secondary == ports
    {
      secondary := ports;
      if myPort == secondary[0] {
        globals.isPrimary := true;
      }
    }

    /** backend/kvstore.cpp:147-151: only a node that is not killed gets this far. */
    method Kill()
      modifies globals`killed, globals`isPrimary
      ensures Flags() == OnKill(old(Flags()))
    {
      if globals.killed {
        return;
      }
      globals.killed, globals.isPrimary := true, false;
    }

    /** backend/kvstore.cpp:22-59: the primary replays its own log, any other node
        synchronises with the primary. A process that does not finish exits. */
    method Restart(primary: Node) returns (ret: Status, ghost messages: seq<string>)
      requires Valid() && primary.Valid() && globals.killed
      requires primary.disk != disk && primary.globals != globals && primary.globals.isPrimary
      modifies cache, disk, globals`maxSequence, globals`killed
      ensures Flags() == OnRestart(old(Flags()))
      ensures (cache.Abs(), ret) == if globals.isPrimary then History.InitCacheForPrimary(old(cache.Abs()))
                                    else RecoverFromPrimary(old(cache.Abs()), primary.disk.log, messages)
      ensures !globals.isPrimary && FullSyncDue(old(disk.log), primary.disk.log) ==>
                Sends(primary.cache.Abs(), messages)
      ensures BlankFree(primary.disk.folders.Keys) ==>
                Valid() && disk.folders.Keys <= old(disk.folders.Keys) + primary.disk.folders.Keys
      ensures BlankFree(primary.disk.folders.Keys) ==>
                forall slack: nat :: old(Bounded(slack)) && old(primary.Bounded(slack)) ==> Bounded(slack)
    {
      hide FoldersOk, DiskTable, RecoverFromPrimary, History.InitCacheForPrimary, AllSizesOk, UpdatesFit, LogBounded,
        BlankFree, Sends, FullSyncDue;
      ghost var mine, other := cache.Abs(), primary.cache.Abs();
      globals.killed := false;
      messages := [];
      if globals.isPrimary {
        ret := cache.InitCacheForPrimary();
      } else {
        ret, messages := cache.SecondaryRecoverFromPrimary(primary.cache);
      }
      forall slack: nat | BlankFree(primary.disk.folders.Keys) && old(Bounded(slack)) && old(primary.Bounded(slack))
        ensures Bounded(slack)
      {
        InitStaysBounded(mine, slack);
        if !globals.isPrimary {
          RecoveryStaysBounded(mine, other, messages, slack);
        }
        FromKeepsSizes(disk.folders, primary.disk.folders, slack);
      }
    }
  }

  lemma FromKeepsSizes(folders: map<string, Folder>, others: map<string, Folder>, slack: nat)
    requires AllSizesOk(others, slack)
    ensures FoldersFrom(folders, others) ==> AllSizesOk(folders, slack)
  {
    hide SizesOk, AppendIndexOf;
  }

  lemma StepStaysBounded(s: State, c: Command, slack: nat)
    ensures UpdatesFit(s.updatesCache, slack) && CommandFits(c, slack) ==> UpdatesFit(Step(s, c).0.updatesCache, slack)
    ensures LogBounded(s.log, slack) && CommandFits(c, slack) && CommandReadable(c) ==>
              LogBounded(Step(s, c).0.log, slack)
  {
    hide UpdatesFit, CommandFits, LogBounded, CommandReadable, Step;
    if UpdatesFit(s.updatesCache, slack) && CommandFits(c, slack) {
      StepFits(s, c, slack);
    }
    if LogBounded(s.log, slack) && CommandFits(c, slack) && CommandReadable(c) {
      StepLogBounded(s, c, slack);
    }
  }

  lemma CheckpointLogBounded(s: State, slack: nat)
    ensures LogBounded(CheckpointedByCopy(s).log, slack)
  {
    hide LogBounded;
    CheckpointBounded(s.sequenceId, slack);
  }

  lemma InitStaysBounded(s: State, slack: nat)
    requires UpdatesFit(s.updatesCache, slack) && LogBounded(s.log, slack)
    ensures UpdatesFit(History.InitCacheForPrimary(s).0.updatesCache, slack)
    ensures LogBounded(History.InitCacheForPrimary(s).0.log, slack)
  {
    hide LogBounded, UpdatesFit, ReplayLoggings;
    CheckpointBounded(s.sequenceId, slack);
    ReplayFits(s, slack);
    ReplayKeepsDisk(s);
  }

  /** After either branch the log is the primary's, or missing, and what is pending comes
      from it. */
  lemma RecoveryStaysBounded(s: State, primary: State, messages: seq<string>, slack: nat)
    requires UpdatesFit(s.updatesCache, slack) && LogBounded(s.log, slack)
    requires UpdatesFit(primary.updatesCache, slack) && LogBounded(primary.log, slack)
    requires FullSyncDue(s.log, primary.log) ==> Sends(primary, messages) && BlankFree(primary.disk.Keys)
    ensures UpdatesFit(RecoverFromPrimary(s, primary.log, messages).0.updatesCache, slack)
    ensures LogBounded(RecoverFromPrimary(s, primary.log, messages).0.log, slack)
  {
    NothingFits(slack);
    hide LogBounded, UpdatesFit, ReplayLoggings, NeedFullSync, FullSync, Sends, BlankFree, CarriedUsers;
    var full, logOnly := State(primary.disk, primary.log, 0, 0, map[], map[]), s.(log := primary.log);
    if FullSyncDue(s.log, primary.log) {
      FullSyncCopies(primary, messages);
    }
    NoLogBounded(slack);
    ReplayFits(full, slack);
    ReplayKeepsDisk(full);
    ReplayFits(logOnly, slack);
    ReplayKeepsDisk(logOnly);
  }

  lemma NoLogBounded(slack: nat)
    ensures LogBounded(None, slack)
  {
  }

  lemma NothingFits(slack: nat)
    ensures UpdatesFit(map[], slack)
  {
  }

  lemma StepCheckpoints(s: State)
    ensures Step(s, CkptCmd).0 == CheckpointedByCopy(s)
  {
  }

  lemma ExecutedOne(c: Command, clock: nat)
    ensures Executed([c], clock) == [c] + if (clock + 1) % 20 == 0 then [CkptCmd] else []
  {
    assert [c][..0] == [];
    assert Executed([], clock) + [c] == [c];
  }

  lemma RunSnoc(s: State, cs: seq<Command>, c: Command)
    ensures Run(s, cs + [c]) == Step(Run(s, cs), c).0
    ensures Forwarded(cs + [c]) == Forwarded(cs) + if IsOperation(c) || c.CkptCmd? then [c] else []
  {
    hide Step;
    assert (cs + [c])[..|cs|] == cs;
  }

  lemma OneMessage(s: State, c: Command, clock: nat)
    ensures var t := Step(s, c).0; var executed := Executed([c], clock);
            && Run(s, executed) == (if (clock + 1) % 20 == 0 then Step(t, CkptCmd).0 else t)
            && Forwarded(executed) == (if IsOperation(c) || c.CkptCmd? then [c] else []) +
                                      (if (clock + 1) % 20 == 0 then [CkptCmd] else [])
  {
    hide Step, Run, Forwarded, Executed;
    ExecutedOne(c, clock);
    RunNothing(s);
    RunSnoc(s, [], c);
    RunSnoc(s, [c], CkptCmd);
    var first: seq<Command> := if IsOperation(c) || c.CkptCmd? then [c] else [];
    assert [] + [c] == [c] && [c] + [] == [c] && [] + first == first && first + [] == first;
  }

  lemma RunNothing(s: State)
    ensures Run(s, []) == s && Forwarded([]) == []
  {
  }
}
