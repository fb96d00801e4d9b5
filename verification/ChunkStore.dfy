/** The `Chunk` object of backend/chunk.h, working on a disk whose files are byte
    strings. Its methods are proved against the meaning of a folder given in
    ChunkFolder. */
module ChunkStore {
  import opened Text
  import opened Status
  import opened Records
  import opened ChunkFolder

  /** The part of the file system a store node uses: its log file and one folder a
      user. */
  class Disk {
    var log: Option<string>
    var folders: map<string, Folder>

    constructor ()
      ensures log == None && folders == map[]
    {
      log, folders := None, map[];
    }

    /** Opening with std::ios::app creates the file and then writes at its end. */
    method Append(usr: string, name: FileName, data: string)
      requires usr in folders
      modifies this`folders
      ensures folders == old(folders)[usr := old(folders)[usr][name := FileOr(old(folders)[usr], name) + data]]
    {
      var f := folders[usr];
      folders := folders[usr := f[name := FileOr(f, name) + data]];
    }

    method Overwrite(usr: string, name: FileName, data: string)
      requires usr in folders
      modifies this`folders
      ensures folders == old(folders)[usr := old(folders)[usr][name := data]]
    {
      folders := folders[usr := folders[usr][name := data]];
    }

    method Remove(usr: string, name: FileName)
      requires usr in folders
      modifies this`folders
      ensures folders == old(folders)[usr := old(folders)[usr] - {name}]
    {
      folders := folders[usr := folders[usr] - {name}];
    }
  }

  function FileOr(f: Folder, name: FileName): string {
    if name in f then f[name] else ""
  }

  class Chunk {
    const disk: Disk
    var appendIndex: nat
    var currentSize: nat
    var usr: string
    // From each key to the chunk that holds it.
    var metadata: map<string, nat>
    // Keys and chunks whose old record is to be removed.
    var delList: seq<Pair>

    constructor (disk: Disk)
      ensures this.disk == disk && metadata == map[] && delList == []
    {
      this.disk := disk;
      appendIndex, currentSize, usr := 0, 0, "";
      metadata, delList := map[], [];
    }

    /** The object agrees with its well-formed folder. */
    ghost predicate Loaded()
      reads this, disk
    {
      && usr in disk.folders && FolderOk(disk.folders[usr])
      && metadata == MetadataOf(disk.folders[usr])
      && appendIndex == AppendIndexOf(disk.folders[usr])
      && delList == []
    }

    /** backend/chunk.h:31-64. Without a folder the object is left unusable. */
    method Init(user: string) returns (ret: Status)
      requires metadata == map[] && delList == []
      requires user in disk.folders ==> FolderOk(disk.folders[user])
      modifies this
      ensures usr == user && delList == []
      ensures ret == if user in disk.folders then Finished else UserError
      ensures ret == Finished ==> Loaded()
    {
      usr := user;
      if user !in disk.folders {
        return UserError;
      }
      var f := disk.folders[user];
      assert IndexFile in f ==> SplitLines(f[IndexFile])[0] == Line(f[IndexFile]);
      if IndexFile in f {
        var vec := SplitLines(f[IndexFile]);
        appendIndex, currentSize := Stoull(vec[0]), Stoull(vec[1]);
      } else {
        appendIndex, currentSize := 0, 0;
      }
      if MetadataFile in f {
        var vec := SplitLines(f[MetadataFile]);
        metadata := ReadTable(vec);
      }
      return Finished;
    }

    /** backend/chunk.h:67-95. */
    method GetValue(key: string) returns (ret: Status, value: string)
      requires Loaded()
      ensures var row := Contents(disk.folders[usr]);
              if key in row then ret == Finished && value == row[key] else ret == KeyError && value == ""
    {
      if key !in metadata {
        return KeyError, "";
      }
      var f := disk.folders[usr];
      assert ChunkFile(metadata[key]) in f by {
        assert HasKey(RecordsOf(f, metadata[key]), key);
      }
      var file := f[ChunkFile(metadata[key])];
      var found := ScanForKey(file, key, RecordsOf(f, metadata[key]));
      StoredValueFound(f, key);
      match found
      case Some(v) => return Finished, v;
      case None => return KeyError, "";
    }

    /** backend/chunk.h:98-109. */
    method GetAllKv() returns (kvs: Row)
      requires Loaded()
      ensures kvs == Contents(disk.folders[usr])
    {
      hide FolderOk, Contents, MetadataOf;
      kvs := map[];
      var keys := metadata.Keys;
      ghost var row := Contents(disk.folders[usr]);
      while keys != {}
        invariant keys <= metadata.Keys && kvs.Keys == metadata.Keys - keys
        invariant forall k :: k in kvs ==> kvs[k] == row[k]
        decreases keys
      {
        var key :| key in keys;
        var _, value := GetValue(key);
        kvs, keys := kvs[key := value], keys - {key};
      }
    }
  
    /** backend/chunk.h:155-180. Each table is written in some order of its map. */
    method WriteMetaBack()
      requires usr in disk.folders && DeleteList !in disk.folders[usr]
      requires forall k :: k in metadata ==> NoNewline(k)
      modifies disk`folders
      ensures disk.folders.Keys == old(disk.folders).Keys
      ensures forall u :: u in disk.folders && u != usr ==> disk.folders[u] == old(disk.folders)[u]
      ensures MetaWritten(old(disk.folders)[usr], disk.folders[usr], metadata, appendIndex, delList)
    {
      ghost var f := disk.folders[usr];
      var data := Dec(appendIndex) + "\n" + Dec(currentSize);
      disk.Overwrite(usr, IndexFile, data);

      var table := PrintTable(metadata);
      disk.Overwrite(usr, MetadataFile, table);

      disk.Append(usr, DeleteList, PrintPairs(delList));
      assert "" + PrintPairs(delList) == PrintPairs(delList);
      assert disk.folders[usr] == f[IndexFile := data][MetadataFile := table][DeleteList := PrintPairs(delList)];
      WrittenTexts(f, disk.folders[usr], metadata, appendIndex, currentSize, delList);
    }

    /** backend/chunk.h:200-247. */
    method LazyDelete(ghost dels: seq<Pair>)
      requires usr in disk.folders && DeleteList in disk.folders[usr]
      requires NamesOk(dels) && disk.folders[usr][DeleteList] == PrintPairs(dels)
      requires forall i :: ChunkFile(i) in disk.folders[usr] ==> IsChunkText(disk.folders[usr][ChunkFile(i)])
      modifies disk`folders
      ensures disk.folders.Keys == old(disk.folders).Keys
      ensures forall u :: u in disk.folders && u != usr ==> disk.folders[u] == old(disk.folders)[u]
      ensures LazilyDeleted(old(disk.folders)[usr], disk.folders[usr], dels)
    {
      hide IsChunkText, PrintPairs, ParsePairs, SplitLines, RecordsOf, DropCounted, EncodeAll, CountsAt,
        ChunksRewritten,
           LazilyDeleted;
      ghost var f := disk.folders[usr];
      NoneRewritten(f, dels);

      TableRoundTrip(dels);
      var delMp := ReadDeleteList(SplitLines(disk.folders[usr][DeleteList]), dels);
      var indices := delMp.Keys;
      assert delMp.Keys - indices == {};
      while indices != {}
        invariant indices <= delMp.Keys
        invariant disk.folders.Keys == old(disk.folders).Keys
        invariant forall u :: u in disk.folders && u != usr ==> disk.folders[u] == old(disk.folders)[u]
        invariant ChunksRewritten(f, disk.folders[usr], dels, delMp.Keys - indices)
        decreases indices
      {
        var index :| index in indices;
        ghost var done := delMp.Keys - indices;
        UnchangedChunk(f, disk.folders[usr], dels, done, index);
        var out := RewriteChunk(FileOr(disk.folders[usr], ChunkFile(index)), delMp[index], f, index);
        RewriteStep(f, disk.folders[usr], dels, done, index, out);
        disk.Overwrite(usr, ChunkFile(index), out);
        indices := indices - {index};
        assert delMp.Keys - indices == done + {index};
      }
      assert delMp.Keys - indices == delMp.Keys;
      RewrittenKeepsList(f, disk.folders[usr], dels, delMp.Keys);
      RewrittenIsDeleted(f, disk.folders[usr], dels, delMp.Keys);
      disk.Remove(usr, DeleteList);
    }

    /** backend/chunk.h:120-152: one checkpointed batch, in any iteration order. When
        the user has no folder no stream opens and the batch is lost. */
    method AppendKvs(mp: Row, ghost slack: nat)
      requires usr in disk.folders ==> Loaded()
      requires forall k :: k in mp ==> NoNewline(k)
      modifies this, disk`folders
      ensures usr == old(usr) && disk.folders.Keys == old(disk.folders).Keys
      ensures forall u :: u in disk.folders && u != usr ==> disk.folders[u] == old(disk.folders)[u]
      ensures usr in disk.folders ==>
                && FolderOk(disk.folders[usr])
                && Contents(disk.folders[usr]) == Overlay(Contents(old(disk.folders)[usr]), mp)
      ensures usr in disk.folders && RecordsFit(mp, slack) &&
              SizesOk(old(disk.folders)[usr], AppendIndexOf(old(disk.folders)[usr]), slack) ==>
                SizesOk(disk.folders[usr], AppendIndexOf(disk.folders[usr]), slack)
    {
      if usr !in disk.folders {
        return;
      }
      hide FolderOk, Contents, PartAppended, MetadataOf, AppendIndexOf, Encode, MetaWritten, LazilyDeleted, SizesOk;
      ghost var f0 := disk.folders[usr];
      ghost var known := SizesOk(f0, AppendIndexOf(f0), slack) && RecordsFit(mp, slack);
      ghost var added := AppendRecords(mp, slack);
      ghost var grown := disk.folders[usr];
      FinishBatch(f0, grown, metadata, appendIndex, mp, delList, added);
      WriteMetaBack();
      ghost var h := disk.folders[usr];
      LazyDelete(delList);
      ghost var g := disk.folders[usr];
      BatchRefinesOverlay(f0, grown, h, g, metadata, appendIndex, mp, delList, added);
      if known {
        SizesAfterDeletion(grown, h, g, metadata, appendIndex, delList, slack);
      }
    }

    /** The loop of `append_kvs` (backend/chunk.h:121-148). */
    method AppendRecords(mp: Row, ghost slack: nat) returns (ghost added: map<nat, seq<Record>>)
      requires Loaded()
      modifies this, disk`folders
      ensures usr == old(usr) && disk.folders.Keys == old(disk.folders).Keys
      ensures forall u :: u in disk.folders && u != usr ==> disk.folders[u] == old(disk.folders)[u]
      ensures AppendIndexOf(old(disk.folders)[usr]) <= appendIndex
      ensures PartAppended(old(disk.folders)[usr], disk.folders[usr], MetadataOf(old(disk.folders)[usr]), metadata,
                           appendIndex, mp, mp.Keys, delList, added)
      ensures SizesOk(old(disk.folders)[usr], old(appendIndex), slack) && RecordsFit(mp, slack) ==>
                SizesOk(disk.folders[usr], appendIndex, slack)
    {
      hide FolderOk, PartAppended, MetadataOf, AppendIndexOf, SizesOk, RecordsFit;
      ghost var f0 := disk.folders[usr];
      ghost var known := SizesOk(f0, appendIndex, slack) && RecordsFit(mp, slack);
      added := map[];
      StartBatch(f0, appendIndex, mp, slack);
      disk.Append(usr, ChunkFile(appendIndex), "");
      var keys := mp.Keys;
      assert mp.Keys - keys == {};
      while keys != {}
        invariant keys <= mp.Keys && usr == old(usr)
        invariant disk.folders.Keys == old(disk.folders).Keys
        invariant forall u :: u in disk.folders && u != usr ==> disk.folders[u] == old(disk.folders)[u]
        invariant ChunkFile(appendIndex) in disk.folders[usr] && AppendIndexOf(f0) <= appendIndex
        invariant PartAppended(f0, disk.folders[usr], MetadataOf(f0), metadata, appendIndex,
                               mp, mp.Keys - keys, delList, added)
        invariant known ==> SizesOk(disk.folders[usr], appendIndex, slack)
        decreases keys
      {
        var key :| key in keys;
        assert mp.Keys - (keys - {key}) == mp.Keys - keys + {key};
        added := AppendOne(mp, key, f0, mp.Keys - keys, added, slack);
        keys := keys - {key};
      }
      assert mp.Keys - keys == mp.Keys;
    }

    /** The body of that loop: list the old record, append the new one, move the index
        and start a new chunk when this one is over the limit. */
    method AppendOne(mp: Row, key: string, ghost f0: Folder, ghost done: set<string>,
                     ghost added0: map<nat, seq<Record>>, ghost slack: nat)
      returns (ghost added: map<nat, seq<Record>>)
      requires done <= mp.Keys && key in mp && key !in done
      requires usr in disk.folders && ChunkFile(appendIndex) in disk.folders[usr]
      requires PartAppended(f0, disk.folders[usr], MetadataOf(f0), metadata, appendIndex, mp, done, delList, added0)
      modifies `appendIndex, `currentSize, `metadata, `delList, disk`folders
      ensures disk.folders.Keys == old(disk.folders).Keys
      ensures forall u :: u in disk.folders && u != usr ==> disk.folders[u] == old(disk.folders)[u]
      ensures appendIndex >= old(appendIndex) && ChunkFile(appendIndex) in disk.folders[usr]
      ensures PartAppended(f0, disk.folders[usr], MetadataOf(f0), metadata, appendIndex,
                           mp, done + {key}, delList, added)
      ensures RecordsFit(mp, slack) && SizesOk(old(disk.folders)[usr], old(appendIndex), slack) ==>
                SizesOk(disk.folders[usr], appendIndex, slack)
    {
      hide PartAppended, MetadataOf, SizesOk, RecordsFit;
      if mp[key] == "" {
        added := added0;
        DeleteStep(f0, disk.folders[usr], MetadataOf(f0), metadata, appendIndex, mp, done, delList, added, key);
        delList := delList + [(key, if key in metadata then metadata[key] else 0)];
        metadata := metadata - {key};
      } else {
        ghost var f, last := disk.folders[usr], appendIndex;
        added := added0[appendIndex := At(added0, appendIndex) + [Record(key, mp[key])]];
        PutStep(f0, f, MetadataOf(f0), metadata, last, mp, done, delList, added0, key);
        StoreOne(Record(key, mp[key]));
        if RecordsFit(mp, slack) && SizesOk(f, last, slack) {
          FittingRecord(mp, slack, key);
          SizeStep(f, last, slack, Encode(Record(key, mp[key])));
        }
        RollOver(mp, f0, done + {key}, added, slack);
      }
    }

    /** backend/chunk.h:138-144. */
    method RollOver(ghost mp: Row, ghost f0: Folder, ghost done: set<string>,
                    ghost added: map<nat, seq<Record>>, ghost slack: nat)
      requires done <= mp.Keys && usr in disk.folders && ChunkFile(appendIndex) in disk.folders[usr]
      requires PartAppended(f0, disk.folders[usr], MetadataOf(f0), metadata, appendIndex, mp, done, delList, added)
      requires currentSize == |disk.folders[usr][ChunkFile(appendIndex)]|
      modifies `appendIndex, `currentSize, disk`folders
      ensures disk.folders.Keys == old(disk.folders).Keys
      ensures forall u :: u in disk.folders && u != usr ==> disk.folders[u] == old(disk.folders)[u]
      ensures appendIndex >= old(appendIndex) && ChunkFile(appendIndex) in disk.folders[usr]
      ensures PartAppended(f0, disk.folders[usr], MetadataOf(f0), metadata, appendIndex, mp, done, delList, added)
      ensures var f := old(disk.folders)[usr];
              (if |f[ChunkFile(old(appendIndex))]| <= SIZE_LIMIT then SizesOk(f, old(appendIndex), slack)
               else ChunkFile(old(appendIndex) + 1) !in f ==>
                      SizesOk(f[ChunkFile(old(appendIndex) + 1) := ""], old(appendIndex) + 1, slack)) ==>
                SizesOk(disk.folders[usr], appendIndex, slack)
    {
      hide PartAppended, MetadataOf, SizesOk;
      ghost var f, last := disk.folders[usr], appendIndex;
      RollStep(f0, f, MetadataOf(f0), metadata, last, mp, done, delList, added);
      if currentSize > SIZE_LIMIT {
        appendIndex, currentSize := appendIndex + 1, 0;
        disk.Append(usr, ChunkFile(appendIndex), "");
        assert FileOr(f, ChunkFile(last + 1)) + "" == "";
      }
    }

    /** backend/chunk.h:130-137. */
    method StoreOne(record: Record)
      requires usr in disk.folders && ChunkFile(appendIndex) in disk.folders[usr]
      modifies `currentSize, `metadata, `delList, disk`folders
      ensures disk.folders.Keys == old(disk.folders).Keys
      ensures forall u :: u in disk.folders && u != usr ==> disk.folders[u] == old(disk.folders)[u]
      ensures var file := ChunkFile(appendIndex);
              disk.folders[usr] == old(disk.folders)[usr][file := old(disk.folders)[usr][file] + Encode(record)]
      ensures currentSize == |disk.folders[usr][ChunkFile(appendIndex)]|
      ensures metadata == old(metadata)[record.key := appendIndex]
      ensures delList == if record.key in old(metadata) then old(delList) + [(record.key, old(metadata)[record.key])]
                         else old(delList)
    {
      hide Encode;
      if record.key in metadata {
        delList := delList + [(record.key, metadata[record.key])];
      }
      disk.Append(usr, ChunkFile(appendIndex), Encode(record));
      metadata := metadata[record.key := appendIndex];
      currentSize := |disk.folders[usr][ChunkFile(appendIndex)]|;
    }
  }

  lemma FittingRecord(mp: Row, slack: nat, key: string)
    requires RecordsFit(mp, slack) && key in mp && mp[key] != ""
    ensures |Encode(Record(key, mp[key]))| <= slack
  {
  }

  /** Every record the batch writes is at most `slack` bytes long. */
  ghost predicate RecordsFit(mp: Row, slack: nat) {
    forall k :: k in mp && mp[k] != "" ==> |Encode(Record(k, mp[k]))| <= slack
  }

  lemma SizeStep(f: Folder, last: nat, slack: nat, data: string)
    requires SizesOk(f, last, slack) && ChunkFile(last) in f && |data| <= slack
    ensures var g := f[ChunkFile(last) := f[ChunkFile(last)] + data];
            if |g[ChunkFile(last)]| <= SIZE_LIMIT then SizesOk(g, last, slack)
            else ChunkFile(last + 1) !in g ==> SizesOk(g[ChunkFile(last + 1) := ""], last + 1, slack)
  {
  }

  lemma FirstFiles(f0: Folder, last: nat)
    requires forall i: nat :: ChunkFile(i) in f0 ==> i <= last && f0[ChunkFile(i)] == EncodeAll(RecordsOf(f0, i))
    ensures FilesGrown(f0, f0[ChunkFile(last) := FileOr(f0, ChunkFile(last)) + ""], last, map[])
  {
    hide EncodeAll, Decode;
    assert FileOr(f0, ChunkFile(last)) + "" == FileOr(f0, ChunkFile(last));
    assert EncodeAll([]) == "" by { EmptyFile(); }
    forall i: nat ensures RecordsOf(f0, i) + At(map[], i) == RecordsOf(f0, i) {
    }
  }

  lemma EmptyFile()
    ensures EncodeAll([]) == ""
  {
  }

  lemma StoredFiles(f0: Folder)
    requires FolderOk(f0)
    ensures forall i: nat :: ChunkFile(i) in f0 ==>
              i <= AppendIndexOf(f0) && f0[ChunkFile(i)] == EncodeAll(RecordsOf(f0, i))
  {
    hide MetadataOf, AppendIndexOf, EncodeAll, Decode, IndexAgrees;
    forall i: nat | ChunkFile(i) in f0
      ensures i <= AppendIndexOf(f0) && f0[ChunkFile(i)] == EncodeAll(RecordsOf(f0, i))
    {
      FileRecords(f0, i);
      ChunkBound(f0, MetadataOf(f0), AppendIndexOf(f0), i);
    }
  }

  lemma ChunkBound(f: Folder, meta: map<string, nat>, last: nat, i: nat)
    requires IndexAgrees(f, meta, last) && ChunkFile(i) in f
    ensures i <= last
  {
  }

  lemma StartBatch(f0: Folder, last: nat, mp: Row, slack: nat)
    requires FolderOk(f0) && last == AppendIndexOf(f0)
    ensures var f := f0[ChunkFile(last) := FileOr(f0, ChunkFile(last)) + ""];
            && PartAppended(f0, f, MetadataOf(f0), MetadataOf(f0), last, mp, {}, [], map[])
            && (SizesOk(f0, last, slack) ==> SizesOk(f, last, slack))
  {
    hide MetadataOf, AppendIndexOf, RecordsOf, EncodeAll, FolderOk;
    StoredFiles(f0);
    FirstFiles(f0, last);
  }

  lemma FinishBatch(f0: Folder, f: Folder, meta: map<string, nat>, last: nat, mp: Row, dels: seq<Pair>,
                    added: map<nat, seq<Record>>)
    requires FolderOk(f0)
    requires PartAppended(f0, f, MetadataOf(f0), meta, last, mp, mp.Keys, dels, added)
    requires forall k :: k in mp ==> NoNewline(k)
    ensures DeleteList !in f && NamesOk(dels)
    ensures forall k :: k in meta ==> NoNewline(k)
    ensures forall i :: ChunkFile(i) in f ==>
              IsChunkText(f[ChunkFile(i)]) && f[ChunkFile(i)] == EncodeAll(RecordsOf(f, i))
  {
    forall i
      ensures ChunkFile(i) in f ==> IsChunkText(f[ChunkFile(i)]) && f[ChunkFile(i)] == EncodeAll(RecordsOf(f, i))
    {
      AppendedKeysOk(meta, mp, added, i);
      GrownRecords(f0, f, last, added, i);
    }
    forall i | 0 <= i < |dels| ensures NoNewline(dels[i].0) {
      assert dels[i] in dels;
    }
  }

  // ---- Steps of lazy_delete ----

  /** The chunks in `done` are rewritten, everything else is as before. */
  ghost predicate ChunksRewritten(f: Folder, g: Folder, dels: seq<Pair>, done: set<nat>) {
    && (forall name: FileName :: !name.ChunkFile? ==> (name in g <==> name in f) && (name in g ==> g[name] == f[name]))
    && (forall i :: i !in done ==>
          (ChunkFile(i) in g <==> ChunkFile(i) in f) && (ChunkFile(i) in g ==> g[ChunkFile(i)] == f[ChunkFile(i)]))
    && (forall i :: i in done ==>
          ChunkFile(i) in g && g[ChunkFile(i)] == EncodeAll(DropCounted(RecordsOf(f, i), CountsAt(dels, i))))
  }

  lemma NoneRewritten(f: Folder, dels: seq<Pair>)
    ensures ChunksRewritten(f, f, dels, {})
  {
  }

  lemma RewriteStep(f: Folder, g: Folder, dels: seq<Pair>, done: set<nat>, index: nat, out: string)
    requires ChunksRewritten(f, g, dels, done)
    requires out == EncodeAll(DropCounted(RecordsOf(f, index), CountsAt(dels, index)))
    ensures ChunksRewritten(f, g[ChunkFile(index) := out], dels, done + {index})
  {
    hide RecordsOf, EncodeAll, DropCounted, CountsAt;
  }

  lemma UnchangedChunk(f: Folder, g: Folder, dels: seq<Pair>, done: set<nat>, i: nat)
    requires ChunksRewritten(f, g, dels, done) && i !in done
    ensures FileOr(g, ChunkFile(i)) == FileOr(f, ChunkFile(i))
  {
  }

  lemma RewrittenKeepsList(f: Folder, g: Folder, dels: seq<Pair>, done: set<nat>)
    requires ChunksRewritten(f, g, dels, done) && DeleteList in f
    ensures DeleteList in g
  {
  }

  /** One round of that loop: load the chunk, erase, and print what is left. */
  method RewriteChunk(file: string, counts: map<string, nat>, ghost f: Folder, ghost i: nat) returns (out: string)
    requires file == FileOr(f, ChunkFile(i))
    requires ChunkFile(i) in f ==> IsChunkText(f[ChunkFile(i)])
    ensures out == EncodeAll(DropCounted(RecordsOf(f, i), counts))
  {
    hide IsChunkText, RecordsOf, DropCounted, EncodeAll;
    FileRecords(f, i);
    var vec := LoadChunk(file, RecordsOf(f, i));
    vec := EraseCounted(vec, counts);
    out := PrintRecords(vec);
  }

  lemma FileRecords(f: Folder, i: nat)
    requires ChunkFile(i) in f ==> IsChunkText(f[ChunkFile(i)])
    ensures FileOr(f, ChunkFile(i)) == EncodeAll(RecordsOf(f, i)) && KeysOk(RecordsOf(f, i))
  {
  }

  lemma {:induction false} UnlistedCounts(dels: seq<Pair>, i: nat)
    requires forall p :: p in dels ==> p.1 != i
    ensures CountsAt(dels, i) == map[]
  {
    if dels != [] {
      UnlistedCounts(dels[..|dels| - 1], i);
    }
  }

  lemma RewrittenIsDeleted(f: Folder, g: Folder, dels: seq<Pair>, listed: set<nat>)
    requires DeleteList in f
    requires forall i :: ChunkFile(i) in f ==> IsChunkText(f[ChunkFile(i)])
    requires ChunksRewritten(f, g, dels, listed)
    requires forall i: nat :: i in listed <==> exists p :: p in dels && p.1 == i
    ensures LazilyDeleted(f, g - {DeleteList}, dels)
  {
    forall i: nat | i !in listed && ChunkFile(i) in f
      ensures f[ChunkFile(i)] == EncodeAll(DropCounted(RecordsOf(f, i), CountsAt(dels, i)))
    {
      UnlistedCounts(dels, i);
      DropNothing(RecordsOf(f, i), map[]);
    }
  }

  /** The nested counting map holds, for each listed chunk, how often each key is listed. */
  ghost predicate IsDelMp(delMp: map<nat, map<string, nat>>, dels: seq<Pair>) {
    && (forall i: nat :: i in delMp <==> exists p :: p in dels && p.1 == i)
    && (forall i :: i in delMp ==> delMp[i] == CountsAt(dels, i))
  }

  lemma NothingCounted()
    ensures IsDelMp(map[], [])
  {
  }

  /** The counting loop of `lazy_delete` (backend/chunk.h:207-218). */
  method ReadDeleteList(vec: seq<string>, ghost dels: seq<Pair>) returns (delMp: map<nat, map<string, nat>>)
    requires ParsePairs(vec) == dels
    ensures IsDelMp(delMp, dels)
  {
    hide ParsePairs, IsDelMp;
    NothingCounted();
    delMp := map[];
    var it := 0;
    ghost var n := 0;
    assert vec[0..] == vec && dels[0..] == dels && dels[..0] == [];
    while it + 1 < |vec|
      invariant it <= |vec| && n <= |dels|
      invariant ParsePairs(vec[it..]) == dels[n..]
      invariant IsDelMp(delMp, dels[..n])
    {
      var key, index := vec[it], Stoull(vec[it + 1]);
      NextPair(vec, it);
      assert dels[..n + 1] == dels[..n] + [(key, index)] && dels[n..][1..] == dels[n + 1..];
      CountedStep(dels[..n], (key, index), delMp);
      var counts := if index in delMp then delMp[index] else map[];
      delMp := delMp[index := counts[key := Count(counts, key) + 1]];
      it, n := it + 2, n + 1;
    }
    NoMorePairs(vec[it..]);
    assert dels[..n] == dels;
  }

  lemma NextPair(vec: seq<string>, it: nat)
    requires it + 1 < |vec|
    ensures ParsePairs(vec[it..]) == [(vec[it], Stoull(vec[it + 1]))] + ParsePairs(vec[it + 2..])
  {
    assert vec[it..][2..] == vec[it + 2..];
  }

  lemma NoMorePairs(vec: seq<string>)
    requires |vec| < 2
    ensures ParsePairs(vec) == []
  {
  }

  lemma CountedStep(dels: seq<Pair>, p: Pair, delMp: map<nat, map<string, nat>>)
    requires IsDelMp(delMp, dels)
    ensures var counts := if p.1 in delMp then delMp[p.1] else map[];
            IsDelMp(delMp[p.1 := counts[p.0 := Count(counts, p.0) + 1]], dels + [p])
  {
    hide CountsAt;
    var counts := if p.1 in delMp then delMp[p.1] else map[];
    if p.1 !in delMp {
      UnlistedCounts(dels, p.1);
    }
    var next := delMp[p.1 := counts[p.0 := Count(counts, p.0) + 1]];
    forall i | i in next ensures next[i] == CountsAt(dels + [p], i) {
      CountsAtSnoc(dels, p, i);
    }
    ListedIndices(dels, p, delMp.Keys);
    assert next.Keys == delMp.Keys + {p.1};
  }

  lemma ListedIndices(dels: seq<Pair>, p: Pair, indices: set<nat>)
    requires forall i: nat :: i in indices <==> exists q :: q in dels && q.1 == i
    ensures forall i: nat :: i in indices + {p.1} <==> exists q :: q in dels + [p] && q.1 == i
  {
    forall i: nat | i in indices + {p.1} ensures exists q :: q in dels + [p] && q.1 == i {
      if i == p.1 {
        assert p in dels + [p];
      } else {
        var q :| q in dels && q.1 == i;
        assert q in dels + [p];
      }
    }
  }

  method PrintRecords(vec: seq<Record>) returns (out: string)
    ensures out == EncodeAll(vec)
  {
    out := "";
    var kv := 0;
    assert vec[..0] == [];
    while kv < |vec|
      invariant kv <= |vec|
      invariant out == EncodeAll(vec[..kv])
    {
      EncodeAllSnoc(vec[..kv], vec[kv]);
      assert vec[..kv + 1] == vec[..kv] + [vec[kv]];
      out := out + Encode(vec[kv]);
      kv := kv + 1;
    }
    assert vec[..kv] == vec;
  }

  // ---- Steps of write_meta_back ----

  method PrintTable(table: map<string, nat>) returns (text: string)
    requires forall k :: k in table ==> NoNewline(k)
    ensures exists ps :: NamesOk(ps) && text == PrintPairs(ps) && ToMap(ps) == table
  {
    text := "";
    var keys := table.Keys;
    ghost var ps: seq<Pair>, written: map<string, nat> := [], map[];
    while keys != {}
      invariant keys <= table.Keys && written.Keys == table.Keys - keys
      invariant forall k :: k in written ==> written[k] == table[k]
      invariant NamesOk(ps) && text == PrintPairs(ps) && ToMap(ps) == written
      decreases keys
    {
      var key :| key in keys;
      PrintPairsSnoc(ps, (key, table[key]));
      ToMapSnoc(ps, (key, table[key]));
      text := text + (key + "\n" + Dec(table[key]) + "\n");
      ps, written := ps + [(key, table[key])], written[key := table[key]];
      keys := keys - {key};
    }
    assert written == table;
  }

  lemma WrittenTexts(f: Folder, g: Folder, meta: map<string, nat>, last: nat, size: nat, dels: seq<Pair>)
    requires DeleteList in g && g[DeleteList] == PrintPairs(dels)
    requires IndexFile in g && g[IndexFile] == Dec(last) + "\n" + Dec(size)
    requires MetadataFile in g
    requires exists ps :: NamesOk(ps) && g[MetadataFile] == PrintPairs(ps) && ToMap(ps) == meta
    requires forall i :: ChunkFile(i) in g <==> ChunkFile(i) in f
    requires forall i :: ChunkFile(i) in g ==> g[ChunkFile(i)] == f[ChunkFile(i)]
    ensures MetaWritten(f, g, meta, last, dels)
  {
    IndexRoundTrip(last, size);
    var ps :| NamesOk(ps) && g[MetadataFile] == PrintPairs(ps) && ToMap(ps) == meta;
    TableRoundTrip(ps);
  }

  lemma IndexRoundTrip(last: nat, size: nat)
    ensures var text := Dec(last) + "\n" + Dec(size); Stoull(Line(text)) == last && |SplitLines(text)| >= 2
  {
    var text := Dec(last) + "\n" + Dec(size);
    DigitsHaveNoNewline(Dec(last));
    LineOf(Dec(last), Dec(size));
    DecRoundTrip(last);
    assert SplitLines(text) == [Line(text)] + SplitLines(Dec(size));
  }

  // ---- Reading the index: pairs laid over a map from the front ----

  function FromPairs(m: map<string, nat>, ps: seq<Pair>): map<string, nat>
    decreases |ps|
  {
    if ps == [] then m else FromPairs(m[ps[0].0 := ps[0].1], ps[1..])
  }

  lemma FromPairsStep(m: map<string, nat>, p: Pair, ps: seq<Pair>)
    ensures FromPairs(m, [p] + ps) == FromPairs(m[p.0 := p.1], ps)
  {
    assert ([p] + ps)[1..] == ps;
  }

  lemma {:induction false} FromPairsSnoc(m: map<string, nat>, ps: seq<Pair>, p: Pair)
    ensures FromPairs(m, ps + [p]) == FromPairs(m, ps)[p.0 := p.1]
    decreases |ps|
  {
    if ps == [] {
      assert ps + [p] == [p];
    } else {
      assert (ps + [p])[1..] == ps[1..] + [p];
      FromPairsSnoc(m[ps[0].0 := ps[0].1], ps[1..], p);
    }
  }

  lemma {:induction false} FromPairsIsToMap(ps: seq<Pair>)
    ensures FromPairs(map[], ps) == ToMap(ps)
  {
    if ps != [] {
      FromPairsIsToMap(ps[..|ps| - 1]);
      assert ps == ps[..|ps| - 1] + [ps[|ps| - 1]];
      FromPairsSnoc(map[], ps[..|ps| - 1], ps[|ps| - 1]);
    }
  }

  /** The loop of `Chunk::init` over the lines of chunk_metadata. */
  method ReadTable(vec: seq<string>) returns (table: map<string, nat>)
    ensures table == ToMap(ParsePairs(vec))
  {
    table := map[];
    var it := 0;
    assert vec[0..] == vec;
    while it + 1 < |vec|
      invariant it <= |vec|
      invariant FromPairs(table, ParsePairs(vec[it..])) == FromPairs(map[], ParsePairs(vec))
    {
      var key, value := vec[it], Stoull(vec[it + 1]);
      assert vec[it..][2..] == vec[it + 2..];
      FromPairsStep(table, (key, value), ParsePairs(vec[it + 2..]));
      table := table[key := value];
      it := it + 2;
    }
    FromPairsIsToMap(ParsePairs(vec));
  }

  lemma StoredValueFound(f: Folder, key: string)
    requires FolderOk(f) && key in MetadataOf(f)
    ensures LastValue(RecordsOf(f, MetadataOf(f)[key]), key) == Some(Contents(f)[key])
  {
    var i := MetadataOf(f)[key];
    assert ChunkAgrees(MetadataOf(f), i, RecordsOf(f, i));
    UniqueFound(RecordsOf(f, i), key);
  }
}
