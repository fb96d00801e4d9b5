/** The `KvCache` object of backend/cache.h. Every method is proved against the state
    machine of KvModel and the recovery functions of History; the folders on disk are
    the byte-level ones of ChunkStore. */
module KvCaches {
  import opened Text
  import opened Status
  import opened Records
  import opened ChunkFolder
  import opened ChunkStore
  import opened LogCodec
  import opened Regex
  import opened KvModel
  import opened History
  import opened SyncMessages

  /** Process-wide variables of a node (backend/kv_config.h:29-43). */
  class Globals {
    var maxSequence: nat
    var isPrimary: bool
    var killed: bool

    constructor ()
      ensures maxSequence == 0 && !isPrimary && !killed
    {
      maxSequence, isPrimary, killed := 0, false, false;
    }
  }

  ghost predicate FoldersOk(folders: map<string, Folder>) {
    forall u :: u in folders ==> FolderOk(folders[u])
  }

  ghost predicate KeysNewlineFree(t: Table) {
    forall u, k :: u in t && k in t[u] ==> NoNewline(k)
  }

  /** The invariant that KvModel and History assume of the disk holds of the files: no
      folder stores an empty value. */
  lemma FilesAreClean(folders: map<string, Folder>, s: State)
    requires FoldersOk(folders) && s.disk == DiskTable(folders)
    ensures DiskClean(s)
  {
    forall u, k | k in RowOf(s.disk, u) ensures RowOf(s.disk, u)[k] != "" {
      StoredValuesNonEmpty(folders[u], k);
    }
  }

  lemma ValidIsClean(cache: KvCache)
    requires cache.Valid()
    ensures DiskClean(cache.Abs())
  {
    FilesAreClean(cache.disk.folders, cache.Abs());
  }

  /** Every chunk file of every user is within the size bound. */
  ghost predicate AllSizesOk(folders: map<string, Folder>, slack: nat) {
    forall u :: u in folders ==> SizesOk(folders[u], AppendIndexOf(folders[u]), slack)
  }

  ghost predicate UpdatesFit(t: Table, slack: nat) {
    forall u :: u in t ==> RecordsFit(t[u], slack)
  }

  /** The loop of `GetsAll` over the pending updates (backend/cache.h:196-202). */
  method LayOver(stored: Row, updates: Row) returns (pairs: Row)
    ensures pairs == Overlay(stored, updates)
  {
    pairs := stored;
    var keys := updates.Keys;
    while keys != {}
      invariant keys <= updates.Keys
      invariant forall k :: k in pairs <==>
                  if k in updates && k !in keys then updates[k] != "" else k in stored
      invariant forall k :: k in pairs ==> pairs[k] == if k in updates && k !in keys then updates[k] else stored[k]
      decreases keys
    {
      var key :| key in keys;
      if updates[key] != "" {
        pairs := pairs[key := updates[key]];
      } else {
        pairs := pairs - {key};
      }
      keys := keys - {key};
    }
    OverlayByKey(stored, pairs, updates);
  }

  lemma TouchedNewlineFree(t: Table, user: string)
    requires KeysNewlineFree(t)
    ensures KeysNewlineFree(Touch(t, user))
  {
  }

  class KvCache {
    const disk: Disk
    const globals: Globals
    var sequenceId: nat
    var readCache: Table
    var updatesCache: Table

    constructor (disk: Disk, globals: Globals)
      ensures this.disk == disk && this.globals == globals
      ensures sequenceId == 0 && readCache == updatesCache == map[]
    {
      this.disk, this.globals := disk, globals;
      sequenceId, readCache, updatesCache := 0, map[], map[];
    }

    /** Passing the cache by value, as `checkpoint` does. */
    constructor Copy(other: KvCache)
      ensures disk == other.disk && globals == other.globals && sequenceId == other.sequenceId
      ensures readCache == other.readCache && updatesCache == other.updatesCache
    {
      disk, globals := other.disk, other.globals;
      sequenceId, readCache, updatesCache := other.sequenceId, other.readCache, other.updatesCache;
    }

    ghost predicate Valid()
      reads this, disk
    {
      FoldersOk(disk.folders) && KeysOk()
    }

    /** The part that does not concern the files. */
    ghost predicate KeysOk()
      reads this
    {
      KeysNewlineFree(updatesCache)
    }

    /** The state of the machine in KvModel that this object and its disk stand for. */
    ghost function Abs(): State
      reads this, disk, globals
    {
      State(DiskTable(disk.folders), disk.log, sequenceId, globals.maxSequence, readCache, updatesCache)
    }

    /** Lines 159-165 of backend/cache.h: a fresh `Chunk` looks the key up. */
    method ReadChunk(user: string, key: string) returns (ret: Status, value: string)
      requires FoldersOk(disk.folders)
      ensures ret == if user !in disk.folders then UserError
                     else if key !in DiskTable(disk.folders)[user] then KeyError else Finished
      ensures value == if ret == Finished then DiskTable(disk.folders)[user][key] else ""
    {
      hide FolderOk, Contents;
      var chunk := new Chunk(disk);
      ret := chunk.Init(user);
      if ret != Finished {
        return ret, "";
      }
      ret, value := chunk.GetValue(key);
    }

    /** A miss in both caches: the chunk answers, and the read cache keeps the answer. */
    method ReadThrough(user: string, key: string) returns (ret: Status, value: string)
      requires Valid() && user in readCache
      modifies `readCache
      ensures Valid() && readCache == old(readCache)[user := old(readCache)[user][key := value]]
      ensures ret == if user !in disk.folders then UserError
                     else if key !in DiskTable(disk.folders)[user] then KeyError else Finished
      ensures value == if ret == Finished then DiskTable(disk.folders)[user][key] else ""
    {
      hide FoldersOk, KeysNewlineFree, DiskTable;
      ghost var row := readCache[user];
      readCache := readCache[user := readCache[user][key := ""]];
      ret, value := ReadChunk(user, key);
      if ret != Finished {
        return ret, "";
      }
      readCache := readCache[user := readCache[user][key := value]];
      assert row[key := ""][key := value] == row[key := value];
      return Finished, readCache[user][key];
    }

    /** backend/cache.h:152-183. */
    method Gets(user: string, key: string) returns (ret: Status, value: string)
      requires Valid()
      modifies `readCache, `updatesCache
      ensures Valid() && Abs() == KvModel.Gets(old(Abs()), user, key).0
      ensures Answer(ret, value) == KvModel.Gets(old(Abs()), user, key).1
    {
      hide FoldersOk, KeysNewlineFree, DiskTable;
      readCache := Touch(readCache, user);
      if key !in readCache[user] {
        TouchedNewlineFree(updatesCache, user);
        updatesCache := Touch(updatesCache, user);
        if key !in updatesCache[user] {
          ret, value := ReadThrough(user, key);
        } else {
          return Finished, updatesCache[user][key];
        }
      } else {
        return Finished, readCache[user][key];
      }
    }

    /** backend/cache.h:185-212. */
    method GetsAll(user: string) returns (ret: Status, pairs: Row)
      requires Valid()
      modifies `updatesCache
      ensures Valid()
      ensures (Abs(), ret, pairs) == KvModel.GetsAll(old(Abs()), user)
    {
      hide FolderOk, Contents, Overlay;
      var chunk := new Chunk(disk);
      ret := chunk.Init(user);
      if ret != Finished {
        return ret, map[];
      }
      var chunkKvs := chunk.GetAllKv();
      updatesCache := Touch(updatesCache, user);
      pairs := LayOver(chunkKvs, updatesCache[user]);
      return Finished, pairs;
    }

    /** backend/cache.h:889-896. */
    method ValidateAndUpdateSeqNum(n: nat) returns (valid: bool)
      modifies `sequenceId
      ensures valid <==> n == old(sequenceId) + 1
      ensures sequenceId == if valid then n else old(sequenceId)
    {
      if n != sequenceId + 1 {
        return false;
      }
      sequenceId := n;
      return true;
    }

    /** backend/cache.h:845-863: appending creates a missing file. */
    method Log(entry: string) returns (ret: Status)
      modifies disk`log
      ensures ret == Finished
      ensures disk.log == Some((if old(disk.log).Some? then old(disk.log).value else "") + entry)
    {
      disk.log := Some((if disk.log.Some? then disk.log.value else "") + entry);
      return Finished;
    }

    /** The private overload (backend/cache.h:865-887). */
    method PutsInMemory(user: string, key: string, value: string) returns (ret: Status)
      requires KeysOk() && NoNewline(key)
      modifies `readCache, `updatesCache
      ensures KeysOk() && ret == Finished
      ensures Abs() == WriteCell(old(Abs()), user, key, value)
    {
      hide FoldersOk, DiskTable;
      if user !in updatesCache {
        updatesCache := updatesCache[user := map[]];
      }
      updatesCache := updatesCache[user := updatesCache[user][key := value]];
      if user in readCache {
        var row := readCache[user] - {key};
        if row == map[] {
          readCache := readCache - {user};
        } else {
          readCache := readCache[user := row];
        }
      }
      return Finished;
    }

    /** backend/cache.h:214-235. */
    method Puts(user: string, key: string, value: string, n: nat, logging: bool) returns (ret: Status)
      requires KeysOk() && NoNewline(key)
      modifies `sequenceId, `readCache, `updatesCache, disk`log
      ensures KeysOk() && (Abs(), ret) == KvModel.Puts(old(Abs()), user, key, value, n, logging)
    {
      hide WriteCell, Format;
      var valid := ValidateAndUpdateSeqNum(n);
      if !valid {
        return SeqError;
      }
      if logging {
        var logged := Log(Format(PutEntry(n, user, key, value)));
      }
      ret := PutsInMemory(user, key, value);
    }

    /** backend/cache.h:268-288. */
    method Dele(user: string, key: string, n: nat, logging: bool) returns (ret: Status)
      requires KeysOk() && NoNewline(key)
      modifies `sequenceId, `readCache, `updatesCache, disk`log
      ensures KeysOk() && (Abs(), ret) == KvModel.Dele(old(Abs()), user, key, n, logging)
    {
      hide WriteCell, Format;
      var valid := ValidateAndUpdateSeqNum(n);
      if !valid {
        return SeqError;
      }
      if logging {
        var logged := Log(Format(DeleEntry(n, user, key)));
      }
      ret := PutsInMemory(user, key, "");
    }

    /** backend/cache.h:237-266. */
    method Cputs(user: string, key: string, prev: string, value: string, n: nat) returns (ret: Status)
      requires Valid() && NoNewline(key)
      modifies `sequenceId, `readCache, `updatesCache, disk`log
      ensures Valid() && (Abs(), ret) == KvModel.Cputs(old(Abs()), user, key, prev, value, n)
    {
      hide WriteCell, Format, KvModel.Gets;
      var valid := ValidateAndUpdateSeqNum(n);
      if !valid {
        return SeqError;
      }
      var oldValue;
      ret, oldValue := Gets(user, key);
      if ret != Finished {
        return ret;
      }
      if oldValue != prev {
        return ValueError;
      }
      var logged := Log(Format(PutEntry(n, user, key, value)));
      ret := PutsInMemory(user, key, value);
    }

    // ---- Checkpoint ----

    /** backend/cache.h:290-316, with the updates of the users in any order. */
    method Checkpoint(ghost slack: nat) returns (ret: Status)
      requires Valid()
      modifies `readCache, `updatesCache, disk
      ensures Valid() && ret == Finished
      ensures Abs() == Checkpointed(old(Abs()))
      ensures AllSizesOk(old(disk.folders), slack) && UpdatesFit(old(updatesCache), slack) ==>
                AllSizesOk(disk.folders, slack)
    {
      hide FoldersOk, DiskTable, AllSizesOk, UpdatesFit, Flushed, CheckpointLine;
      FlushAll(slack);
      FlushedIsCheckpointed(old(disk.folders), disk.folders, updatesCache);
      disk.log := Some("");
      readCache, updatesCache := map[], map[];
      EmptyPlus(CheckpointLine(sequenceId));
      ret := Log(CheckpointLine(sequenceId));
    }

    method FlushAll(ghost slack: nat)
      requires Valid()
      modifies disk`folders
      ensures Valid() && Flushed(old(disk.folders), disk.folders, updatesCache, updatesCache.Keys)
      ensures AllSizesOk(old(disk.folders), slack) && UpdatesFit(updatesCache, slack) ==>
                AllSizesOk(disk.folders, slack)
    {
      hide AllSizesOk, UpdatesFit, FoldersOk, KeysNewlineFree, Flushed;
      var users := updatesCache.Keys;
      NothingFlushed(disk.folders, updatesCache, slack);
      assert updatesCache.Keys - users == {};
      while users != {}
        invariant users <= updatesCache.Keys && Valid()
        invariant Flushed(old(disk.folders), disk.folders, updatesCache, updatesCache.Keys - users)
        invariant AllSizesOk(old(disk.folders), slack) && UpdatesFit(updatesCache, slack) ==>
                    AllSizesOk(disk.folders, slack)
        decreases users
      {
        var user :| user in users;
        FlushUser(user, old(disk.folders), updatesCache.Keys - users, slack);
        assert updatesCache.Keys - (users - {user}) == updatesCache.Keys - users + {user};
        users := users - {user};
      }
      assert updatesCache.Keys - users == updatesCache.Keys;
    }

    /** One round: a fresh `Chunk` takes the user's updates. A missing folder is ignored. */
    method FlushUser(user: string, ghost folders: map<string, Folder>, ghost done: set<string>, ghost slack: nat)
      requires Valid() && user in updatesCache && user !in done
      requires Flushed(folders, disk.folders, updatesCache, done)
      modifies disk`folders
      ensures Valid() && Flushed(folders, disk.folders, updatesCache, done + {user})
      ensures AllSizesOk(old(disk.folders), slack) && UpdatesFit(updatesCache, slack) ==>
                AllSizesOk(disk.folders, slack)
    {
      hide FolderOk, Contents, Overlay, SizesOk, RecordsFit, AppendIndexOf, DiskTable;
      var chunk := new Chunk(disk);
      var ret := chunk.Init(user);
      chunk.AppendKvs(updatesCache[user], slack);
    }

    // ---- Replay ----

    /** backend/cache.h:768-843. */
    method ReplayLoggings() returns (ret: Status)
      requires KeysOk()
      modifies `sequenceId, `readCache, `updatesCache, disk`log, globals`maxSequence
      ensures KeysOk() && (Abs(), ret) == History.ReplayLoggings(old(Abs()))
    {
      hide Items, ExtractCheckpointId, ReplayItems;
      if disk.log == None {
        return RecError;
      }
      var loggings := disk.log.value;
      match ExtractCheckpointId(loggings) {
        case NoId => return RecError;
        case IdThrows => return Crashed;
        case Id(id) => sequenceId := id;
      }
      updatesCache, readCache := map[], map[];
      ret := ReplayEntries(loggings);
      if ret == Finished {
        globals.maxSequence := sequenceId;
      }
    }

    /** The loop of that method, which consumes the text header by header. */
    method ReplayEntries(text: string) returns (ret: Status)
      requires KeysOk()
      modifies `sequenceId, `readCache, `updatesCache, disk`log
      ensures KeysOk() && (Abs(), ret) == ReplayItems(old(Abs()), Items(text))
    {
      hide NextRound, Items, ReplayItems, ReplayOne, FoldersOk, KeysNewlineFree;
      var loggings := text;
      ghost var done: seq<Item> := [];
      ReplayNothing(Abs());
      assert done + Items(loggings) == Items(loggings);
      while NextRound(loggings).Some?
        invariant KeysOk()
        invariant Items(text) == done + Items(loggings)
        invariant (Abs(), Finished) == ReplayItems(old(Abs()), done)
        decreases |loggings|
      {
        var round := NextRound(loggings).value;
        FirstItem(loggings);
        ReplayNext(old(Abs()), done, round.item);
        Regroup(done, round.item, Items(loggings)[1..]);
        ReplayStops(old(Abs()), done + [round.item], Items(loggings)[1..]);
        ret := ApplyItem(round.item, loggings);
        if ret != Finished {
          return ret;
        }
        if round.rest == None {
          assert Items(text) == done + [round.item] + [Throws];
          ReplayNext(old(Abs()), done + [round.item], Throws);
          ReplayThrows(Abs());
          return Crashed;
        }
        RoundShrinks(loggings);
        done := done + [round.item];
        loggings := round.rest.value;
      }
      NoMoreItems(loggings);
      assert done + [] == done;
      return Finished;
    }

    method ApplyItem(item: Item, ghost loggings: string) returns (ret: Status)
      requires KeysOk() && NextRound(loggings).Some? && NextRound(loggings).value.item == item
      modifies `sequenceId, `readCache, `updatesCache, disk`log
      ensures KeysOk() && (Abs(), ret) == ReplayOne(old(Abs()), item)
      ensures item == Throws ==> ret == Crashed
    {
      hide NextRound, FoldersOk, KeysNewlineFree, KvModel.Puts, KvModel.Dele;
      match item
      case Op(PutEntry(n, user, key, value)) =>
        RoundNames(loggings);
        NamesHaveNoNewline(key);
        ret := Puts(user, key, value, n, false);
        ret := if ret == Finished then Finished else RecError;
      case Op(DeleEntry(n, user, key)) =>
        RoundNames(loggings);
        NamesHaveNoNewline(key);
        ret := Dele(user, key, n, false);
        ret := if ret == Finished then Finished else RecError;
      case Unknown => ret := Finished;
      case Throws => ret := Crashed;
    }

    // ---- Start-up and synchronisation ----

    /** backend/cache.h:132-150. */
    method InitCacheForPrimary() returns (ret: Status)
      requires Valid()
      modifies `sequenceId, `readCache, `updatesCache, disk`log, globals`maxSequence
      ensures Valid() && (Abs(), ret) == History.InitCacheForPrimary(old(Abs()))
    {
      hide History.ReplayLoggings, CheckpointLine;
      if disk.log == None {
        disk.log := Some(CheckpointLine(sequenceId));
        return Finished;
      }
      ret := ReplayLoggings();
    }

    /** backend/cache.h:520-588. */
    method NeedFullSync(loggings: string) returns (need: Need)
      ensures need == History.NeedFullSync(disk.log, loggings)
    {
      var lastCheckpointId := 0;
      if disk.log.Some? {
        match ExtractCheckpointId(disk.log.value) {
          case NoId => return Full;
          case IdThrows => return NeedThrows;
          case Id(id) => lastCheckpointId := id;
        }
      }
      match ExtractCheckpointId(loggings)
      case NoId => return Full;
      case IdThrows => return NeedThrows;
      case Id(id) => return if id > lastCheckpointId then Full else LogOnly;
    }

    /** backend/cache.h:756-766. */
    method OverwriteLoggingAndReplay(loggings: string) returns (ret: Status)
      requires KeysOk()
      modifies `sequenceId, `readCache, `updatesCache, disk`log, globals`maxSequence
      ensures KeysOk() && (Abs(), ret) == History.ReplayLoggings(old(Abs()).(log := Some(loggings)))
    {
      hide History.ReplayLoggings;
      disk.log := Some(loggings);
      ret := ReplayLoggings();
    }

    /** backend/cache.h:590-601. */
    method ResetLocalStateForFullSync()
      modifies this, disk, globals`maxSequence
      ensures Valid() && disk.log == NO_FILES.log && disk.folders == NO_FILES.folders
      ensures sequenceId == globals.maxSequence == 0 && readCache == updatesCache == map[]
    {
      sequenceId, globals.maxSequence := 0, 0;
      updatesCache, readCache := map[], map[];
      disk.log, disk.folders := None, map[];
    }

    /** backend/cache.h:967-982. */
    method MatchHeaderAndExtractContent(message: string)
      returns (matched: bool, path: string, kind: string, content: string)
      ensures matched <==> Search(TRANSFER, message).Some?
      ensures matched ==> var m := Search(TRANSFER, message).value;
                          |m.groups| >= 2 && path == m.groups[0] && kind == m.groups[1] && content == m.rest
    {
      hide Search;
      match Search(TRANSFER, message)
      case None => return false, "", "", "";
      case Some(m) =>
        OnlyPathsRead(message);
        return true, m.groups[0], m.groups[1], m.rest;
    }

    /** backend/cache.h:603-696: file after file until the closing message, or until one
        cannot be read or stored. */
    method PerformFullSyncFromPrimary(messages: seq<string>) returns (ret: Status)
      requires KeysOk() && disk.log == NO_FILES.log && disk.folders == NO_FILES.folders
      requires sequenceId == globals.maxSequence == 0 && readCache == updatesCache == map[]
      modifies `sequenceId, `readCache, `updatesCache, disk, globals`maxSequence
      ensures KeysOk() && (Abs(), ret) == FullSync(messages)
      ensures disk.folders == ReceiveFiles(NO_FILES, messages).0.folders
    {
      hide History.ReplayLoggings, DiskTable, Search, Store;
      ghost var all := ReceiveFiles(NO_FILES, messages);
      var i, receivedAllFiles := 0, false;
      assert messages[0..] == messages;
      while i < |messages|
        invariant i <= |messages| && !receivedAllFiles
        invariant ReceiveFiles(Image(disk.log, disk.folders), messages[i..]) == all
        modifies disk
      {
        var message := messages[i];
        assert messages[i..][0] == message && messages[i..][1..] == messages[i + 1..];
        if message == SYNC_DONE {
          receivedAllFiles := true;
          break;
        }
        if message == SYNC_ERROR {
          break;
        }
        var matched, path, kind, content := MatchHeaderAndExtractContent(message);
        if !matched {
          return SyncError;
        }
        var stored := StoreFile(path, kind, content);
        if !stored {
          return SyncError;
        }
        i := i + 1;
      }
      assert all == (Image(disk.log, disk.folders), receivedAllFiles);
      if receivedAllFiles {
        ret := ReplayLoggings();
      } else {
        ret := SyncError;
      }
    }

    /** backend/cache.h:636-676. */
    method StoreFile(path: string, kind: string, content: string) returns (stored: bool)
      modifies disk
      ensures var next := Store(Image(old(disk.log), old(disk.folders)), path, kind, content);
              stored == next.Some? &&
              Image(disk.log, disk.folders) == if stored then next.value else Image(old(disk.log), old(disk.folders))
    {
      if kind == "DIR" {
        if path in disk.folders {
          return false;
        }
        disk.folders := disk.folders[path := map[]];
      } else if kind == "FILE" {
        if path == "logging" {
          disk.log := Some(content);
        } else {
          match SplitPath(path) {
            case None =>
            case Some((dir, base)) =>
              if dir != "" {
                var f := if dir in disk.folders then disk.folders[dir] else map[];
                match NameOf(base) {
                  case None => disk.folders := disk.folders[dir := f];
                  case Some(name) => disk.folders := disk.folders[dir := f[name := content]];
                }
              }
          }
        }
      } else {
        return false;
      }
      return true;
    }

    /** backend/cache.h:422-518, with the primary's side of the exchange
        (backend/cache.h:318-400): the log first, then all files if they are asked for.
        The files are in order again if no user of the primary has a blank in the name, as
        at sign-up (frontend/login.h:6-21). */
    method SecondaryRecoverFromPrimary(primary: KvCache) returns (ret: Status, ghost messages: seq<string>)
      requires Valid() && primary.Valid() && primary.disk != disk && primary.globals != globals
      requires primary.globals.isPrimary
      modifies this, disk, globals`maxSequence
      ensures KeysOk()
      ensures (Abs(), ret) == if globals.isPrimary then (old(Abs()), SyncError)
                              else RecoverFromPrimary(old(Abs()), primary.disk.log, messages)
      ensures !globals.isPrimary && FullSyncDue(old(disk.log), primary.disk.log) ==> Sends(primary.Abs(), messages)
      ensures BlankFree(primary.disk.folders.Keys) ==>
                Valid() && (disk.folders == old(disk.folders) || FoldersFrom(disk.folders, primary.disk.folders))
    {
      hide FoldersOk, DiskTable, ReceiveFiles, ExtractCheckpointId, History.ReplayLoggings, History.NeedFullSync,
        Search,
        FullSync, KeysNewlineFree, BlankFree, Sends, SentFrom, FileText;
      messages := [];
      if globals.isPrimary || primary.disk.log == None {
        return SyncError, messages;
      }
      var first := FileText("logging", primary.disk.log.value);
      LogRead(primary.disk.log.value);
      var matched, path, kind, loggings := MatchHeaderAndExtractContent(first);
      if !matched {
        return SyncError, messages;
      }
      var need := NeedFullSync(loggings);
      if need == NeedThrows {
        return Crashed, messages;
      } else if need == Full {
        var files := Image(primary.disk.log, primary.disk.folders);
        ResetLocalStateForFullSync();
        var sent := SendAll(files);
        messages := sent;
        ReceivedFolders(files, messages);
        ret := PerformFullSyncFromPrimary(sent);
        assert Sends(primary.Abs(), messages) by {
          FilesAreSent(primary.Abs(), files, messages);
        }
      } else {
        ret := OverwriteLoggingAndReplay(loggings);
      }
    }
  }

  predicate FullSyncDue(local: Option<string>, loggings: Option<string>) {
    loggings.Some? && History.NeedFullSync(local, loggings.value) == Full
  }

  ghost predicate FoldersFrom(folders: map<string, Folder>, others: map<string, Folder>) {
    forall u :: u in folders ==> u in others && folders[u] == others[u]
  }

  lemma LogRead(log: string)
    ensures var found := Search(TRANSFER, FileText("logging", log)); found.Some? && found.value.rest == log
  {
    assert AllIn(PathChars, "logging") && AllIn(Letters, "FILE");
    hide Search, AllIn, TransferHeader;
    HeaderRead("logging", "FILE", |log|, log);
  }

  lemma FilesAreSent(primary: State, files: Image, messages: seq<string>)
    requires SentFrom(files, messages) && files.log == primary.log && DiskTable(files.folders) == primary.disk
    ensures Sends(primary, messages)
  {
  }

  /** Complete folders stay in order. */
  lemma ReceivedFolders(files: Image, messages: seq<string>)
    requires SentFrom(files, messages) && FoldersOk(files.folders)
    ensures var folders := ReceiveFiles(NO_FILES, messages).0.folders;
            BlankFree(files.folders.Keys) ==> FoldersOk(folders) && FoldersFrom(folders, files.folders)
  {
    hide SentFrom, ReceiveFiles, BlankFree, FolderOk;
    TransferIff(files, messages);
  }

  lemma ReplayNothing(s: State)
    ensures ReplayItems(s, []) == (s, Finished)
  {
  }

  lemma ReplayThrows(s: State)
    ensures ReplayOne(s, Throws) == (s, Crashed)
  {
  }

  lemma NoMoreItems(loggings: string)
    ensures NextRound(loggings).None? ==> Items(loggings) == []
  {
  }

  lemma Regroup(done: seq<Item>, item: Item, rest: seq<Item>)
    ensures done + ([item] + rest) == done + [item] + rest
  {
  }

  lemma FirstItem(loggings: string)
    requires NextRound(loggings).Some?
    ensures var round := NextRound(loggings).value;
            && Items(loggings) != [] && Items(loggings)[0] == round.item
            && Items(loggings) == [round.item] + Items(loggings)[1..]
            && (round.rest.Some? ==> Items(loggings)[1..] == Items(round.rest.value))
            && (round.rest.None? && round.item != Throws ==> Items(loggings)[1..] == [Throws])
  {
    hide NextRound;
  }

  lemma ReplayNext(s: State, done: seq<Item>, item: Item)
    requires ReplayItems(s, done).1 == Finished
    ensures ReplayItems(s, done + [item]) == ReplayOne(ReplayItems(s, done).0, item)
  {
    assert (done + [item])[..|done|] == done;
  }

  /** A failed operation ends the replay, whatever follows it. */
  lemma {:induction false} ReplayStops(s: State, done: seq<Item>, more: seq<Item>)
    ensures ReplayItems(s, done).1 != Finished ==> ReplayItems(s, done + more) == ReplayItems(s, done)
  {
    if more == [] {
      assert done + more == done;
    } else {
      var front := more[..|more| - 1];
      ReplayStops(s, done, front);
      assert (done + more)[..|done + more| - 1] == done + front;
    }
  }

  /** The folders of the users in `done` have their updates laid over, the others are
      as they were. */
  ghost predicate Flushed(before: map<string, Folder>, after: map<string, Folder>, updates: Table, done: set<string>) {
    && after.Keys == before.Keys
    && forall u :: u in before ==>
         if u in done && u in updates then Contents(after[u]) == Overlay(Contents(before[u]), updates[u])
         else after[u] == before[u]
  }

  lemma NothingFlushed(folders: map<string, Folder>, updates: Table, slack: nat)
    ensures Flushed(folders, folders, updates, {})
  {
  }

  lemma EmptyPlus(s: string)
    ensures "" + s == s
  {
  }

  lemma OverlayNothing(row: Row)
    ensures Overlay(row, map[]) == row
  {
  }

  lemma FlushedIsCheckpointed(before: map<string, Folder>, after: map<string, Folder>, updates: Table)
    requires Flushed(before, after, updates, updates.Keys)
    ensures DiskTable(after) == map u | u in DiskTable(before) :: Overlay(DiskTable(before)[u], RowOf(updates, u))
  {
    hide Contents, Overlay;
    forall u | u in before ensures Contents(after[u]) == Overlay(Contents(before[u]), RowOf(updates, u)) {
      OverlayNothing(Contents(before[u]));
    }
  }
}
