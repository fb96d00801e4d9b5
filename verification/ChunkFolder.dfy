/** What a user's folder means: chunk files of records, an index from each key to
    the chunk that holds it, and the effect of one checkpointed batch on both
    (backend/chunk.h). */
module ChunkFolder {
  import opened Text
  import opened Records

  datatype FileName = IndexFile | MetadataFile | DeleteList | ChunkFile(n: nat)

  type Folder = map<FileName, string>

  /** One user's keys and values. */
  type Row = map<string, string>

  const SIZE_LIMIT: nat := 0x400_0000

  // ---- Reading a folder ----

  function MetadataOf(f: Folder): map<string, nat> {
    if MetadataFile in f then ToMap(ParsePairs(SplitLines(f[MetadataFile]))) else map[]
  }

  function AppendIndexOf(f: Folder): nat {
    if IndexFile in f then Stoull(Line(f[IndexFile])) else 0
  }

  function RecordsOf(f: Folder, i: nat): seq<Record> {
    if ChunkFile(i) in f then Decode(f[ChunkFile(i)]) else []
  }

  function ValueIn(rs: seq<Record>, key: string): string {
    match LastValue(rs, key)
    case Some(v) => v
    case None => ""
  }

  /** The key-value pairs the folder stores. */
  function Contents(f: Folder): (row: Row)
    ensures row.Keys == MetadataOf(f).Keys
  {
    map k | k in MetadataOf(f) :: ValueIn(RecordsOf(f, MetadataOf(f)[k]), k)
  }

  /** What the folders of all users store. */
  function DiskTable(folders: map<string, Folder>): (t: map<string, Row>)
    ensures t.Keys == folders.Keys
  {
    map u | u in folders :: Contents(folders[u])
  }

  // ---- Well-formed folders, as they are between two batches ----

  ghost predicate TextsOk(f: Folder) {
    && DeleteList !in f
    && (IndexFile in f ==> |SplitLines(f[IndexFile])| >= 2)
    && (MetadataFile in f ==> exists ps :: NamesOk(ps) && f[MetadataFile] == PrintPairs(ps))
    && (forall i :: ChunkFile(i) in f ==> IsChunkText(f[ChunkFile(i)]))
  }

  ghost predicate HasKey(rs: seq<Record>, key: string) {
    exists j :: 0 <= j < |rs| && rs[j].key == key
  }

  /** Chunk `i` holds at most one record a key, only of keys indexed there, and no
      empty value. */
  ghost predicate ChunkAgrees(meta: map<string, nat>, i: nat, rs: seq<Record>) {
    && NoDuplicates(rs)
    && (forall r :: r in rs ==> r.key in meta && meta[r.key] == i && r.value != "")
  }

  /** Every indexed key has its one record, with a non-empty value, in the chunk the
      index names; no other record exists; no chunk lies beyond the append index. */
  ghost predicate IndexAgrees(f: Folder, meta: map<string, nat>, last: nat) {
    && (forall k :: k in meta ==> NoNewline(k) && meta[k] <= last && HasKey(RecordsOf(f, meta[k]), k))
    && (forall i: nat :: ChunkAgrees(meta, i, RecordsOf(f, i)))
    && (forall i: nat :: i > last ==> ChunkFile(i) !in f)
  }

  ghost predicate FolderOk(f: Folder) {
    TextsOk(f) && IndexAgrees(f, MetadataOf(f), AppendIndexOf(f))
  }

  lemma EmptyFolderOk()
    ensures FolderOk(map[]) && Contents(map[]) == map[]
  {
  }

  lemma UniqueFound(rs: seq<Record>, key: string)
    requires NoDuplicates(rs) && HasKey(rs, key)
    ensures LastValue(rs, key) == Some(ValueIn(rs, key))
    ensures Record(key, ValueIn(rs, key)) in rs
  {
    var j :| 0 <= j < |rs| && rs[j].key == key;
    LastValueOfUnique(rs, j);
  }

  /** Stored values are never empty: the empty string is the delete marker. */
  lemma StoredValuesNonEmpty(f: Folder, key: string)
    requires FolderOk(f) && key in Contents(f)
    ensures Contents(f)[key] != "" && NoNewline(key)
  {
    var i := MetadataOf(f)[key];
    assert ChunkAgrees(MetadataOf(f), i, RecordsOf(f, i));
    UniqueFound(RecordsOf(f, i), key);
  }

  /** A row after a batch of updates, the empty value deleting its key. */
  function Overlay(row: Row, updates: Row): Row {
    map k | k in row.Keys + updates.Keys && !(k in updates && updates[k] == "") ::
      if k in updates then updates[k] else row[k]
  }

  // ---- The state in the middle of a batch ----

  function At(added: map<nat, seq<Record>>, i: nat): seq<Record> {
    if i in added then added[i] else []
  }

  /** The chunk files hold the old records followed by the appended ones, up to the
      append index; the other files are untouched. */
  ghost predicate FilesGrown(f0: Folder, f: Folder, last: nat, added: map<nat, seq<Record>>) {
    && (forall name: FileName :: !name.ChunkFile? ==>
          (name in f <==> name in f0) && (name in f ==> f[name] == f0[name]))
    && (forall i: nat :: ChunkFile(i) in f ==>
          i <= last && f[ChunkFile(i)] == EncodeAll(RecordsOf(f0, i) + At(added, i)))
    && (forall i :: ChunkFile(i) !in f ==> ChunkFile(i) !in f0 && At(added, i) == [])
  }

  /** The index names the new record of each stored key of the batch so far. */
  ghost predicate IndexMoved(meta0: map<string, nat>, meta: map<string, nat>, last: nat,
                             mp: Row, done: set<string>, added: map<nat, seq<Record>>)
    requires done <= mp.Keys
  {
    && (forall k :: k in meta <==> if k in done then mp[k] != "" else k in meta0)
    && (forall k :: k in meta && k !in done ==> meta[k] == meta0[k])
    && (forall k :: k in meta && k in done ==>
          meta[k] <= last && Record(k, mp[k]) in At(added, meta[k]))
  }

  /** The appended records are those of the batch so far, each once. */
  ghost predicate RecordsAppended(meta: map<string, nat>, mp: Row, done: set<string>,
                                  added: map<nat, seq<Record>>)
    requires done <= mp.Keys
  {
    && (forall i, r :: r in At(added, i) ==>
          r.key in done && mp[r.key] == r.value && r.value != "" && r.key in meta && meta[r.key] == i)
    && (forall i :: NoDuplicates(At(added, i)))
  }

  ghost predicate Distinct(ps: seq<Pair>) {
    forall a, b :: 0 <= a < b < |ps| ==> ps[a].0 != ps[b].0
  }

  /** The delete list names the old place of every key of the batch that had one.
      Deleting a key that was never stored leaves a phantom entry for chunk 0. */
  ghost predicate OldRecordsListed(meta0: map<string, nat>, mp: Row, done: set<string>, dels: seq<Pair>)
    requires done <= mp.Keys
  {
    && Distinct(dels)
    && (forall p :: p in dels ==> p.0 in done && if p.0 in meta0 then p.1 == meta0[p.0] else mp[p.0] == "" && p.1 == 0)
    && (forall k :: k in done && k in meta0 ==> (k, meta0[k]) in dels)
  }

  // ---- The delete list as counts ----

  function CountsAt(dels: seq<Pair>, i: nat): map<string, nat> {
    if dels == [] then map[]
    else
      var counts := CountsAt(dels[..|dels| - 1], i);
      var p := dels[|dels| - 1];
      if p.1 == i then counts[p.0 := Count(counts, p.0) + 1] else counts
  }

  lemma CountsAtSnoc(dels: seq<Pair>, p: Pair, i: nat)
    ensures CountsAt(dels + [p], i) ==
            if p.1 == i then CountsAt(dels, i)[p.0 := Count(CountsAt(dels, i), p.0) + 1] else CountsAt(dels, i)
  {
    assert (dels + [p])[..|dels|] == dels;
  }

  lemma {:induction false} CountsOfDistinct(dels: seq<Pair>, i: nat)
    requires Distinct(dels)
    ensures forall k :: k in CountsAt(dels, i) <==> (k, i) in dels
    ensures forall k :: k in CountsAt(dels, i) ==> CountsAt(dels, i)[k] == 1
  {
    if dels != [] {
      var front, p := dels[..|dels| - 1], dels[|dels| - 1];
      assert dels == front + [p];
      CountsOfDistinct(front, i);
    }
  }

  /** What `lazy_delete` leaves of a folder (backend/chunk.h:200-247). */
  ghost predicate LazilyDeleted(f: Folder, g: Folder, dels: seq<Pair>) {
    && DeleteList !in g
    && (forall name: FileName :: !name.ChunkFile? && name != DeleteList ==>
          (name in g <==> name in f) && (name in g ==> g[name] == f[name]))
    && (forall i :: ChunkFile(i) in g <==> ChunkFile(i) in f || exists p :: p in dels && p.1 == i)
    && (forall i :: ChunkFile(i) in g ==>
          g[ChunkFile(i)] == EncodeAll(DropCounted(RecordsOf(f, i), CountsAt(dels, i))))
  }

  // ---- A batch leaves a well-formed folder with the batch overlaid ----

  lemma GrownRecords(f0: Folder, f: Folder, last: nat, added: map<nat, seq<Record>>, i: nat)
    requires FolderOk(f0) && FilesGrown(f0, f, last, added) && KeysOk(At(added, i))
    ensures RecordsOf(f, i) == RecordsOf(f0, i) + At(added, i)
    ensures KeysOk(RecordsOf(f, i))
    ensures ChunkFile(i) in f ==> f[ChunkFile(i)] == EncodeAll(RecordsOf(f, i)) && IsChunkText(f[ChunkFile(i)])
  {
    ChunkRoundTrip(RecordsOf(f0, i) + At(added, i));
  }

  /** Chunk `i` after the batch: the old records of keys outside the batch, then the
      appended ones. */
  lemma SurvivingRecords(f0: Folder, meta: map<string, nat>, mp: Row, dels: seq<Pair>,
                         added: map<nat, seq<Record>>, i: nat)
    requires FolderOk(f0)
    requires RecordsAppended(meta, mp, mp.Keys, added)
    requires OldRecordsListed(MetadataOf(f0), mp, mp.Keys, dels)
    ensures DropCounted(RecordsOf(f0, i) + At(added, i), CountsAt(dels, i)) ==
            Without(RecordsOf(f0, i), mp.Keys) + At(added, i)
  {
    var old_, counts := RecordsOf(f0, i), CountsAt(dels, i);
    CountsOfDistinct(dels, i);
    forall r | r in At(added, i) && Count(counts, r.key) > 0 ensures exists o :: o in old_ && o.key == r.key {
      assert (r.key, i) in dels;
      assert HasKey(RecordsOf(f0, MetadataOf(f0)[r.key]), r.key);
    }
    DropSparesAppended(old_, At(added, i), counts);
    forall r | r in old_ ensures r.key in Marked(counts) <==> r.key in mp.Keys {
      assert (r.key, MetadataOf(f0)[r.key]) in dels <==> r.key in mp.Keys;
    }
    WithoutUnaffected(old_, Marked(counts), mp.Keys);
  }

  // ---- After write_meta_back and lazy_delete ----

  /** What `write_meta_back` adds to a folder (backend/chunk.h:155-180). */
  ghost predicate MetaWritten(f: Folder, g: Folder, meta: map<string, nat>, last: nat, dels: seq<Pair>) {
    && (forall i :: ChunkFile(i) in g <==> ChunkFile(i) in f)
    && (forall i :: ChunkFile(i) in g ==> g[ChunkFile(i)] == f[ChunkFile(i)])
    && IndexFile in g && |SplitLines(g[IndexFile])| >= 2 && AppendIndexOf(g) == last
    && MetadataFile in g && MetadataOf(g) == meta
    && (exists ps :: NamesOk(ps) && g[MetadataFile] == PrintPairs(ps))
    && DeleteList in g && g[DeleteList] == PrintPairs(dels)
  }

  /** What the loop of `append_kvs` keeps while the keys in `done` are finished. */
  ghost predicate PartAppended(f0: Folder, f: Folder, meta0: map<string, nat>, meta: map<string, nat>, last: nat,
                               mp: Row, done: set<string>, dels: seq<Pair>, added: map<nat, seq<Record>>)
    requires done <= mp.Keys
  {
    && FilesGrown(f0, f, last, added)
    && IndexMoved(meta0, meta, last, mp, done, added)
    && RecordsAppended(meta, mp, done, added)
    && OldRecordsListed(meta0, mp, done, dels)
  }

  ghost predicate BatchAppended(f0: Folder, f: Folder, meta: map<string, nat>, last: nat,
                                mp: Row, dels: seq<Pair>, added: map<nat, seq<Record>>) {
    PartAppended(f0, f, MetadataOf(f0), meta, last, mp, mp.Keys, dels, added)
  }

  lemma AppendedDistinct(rs: seq<Record>, r: Record)
    requires NoDuplicates(rs) && forall q :: q in rs ==> q.key != r.key
    ensures NoDuplicates(rs + [r])
  {
  }

  lemma ListedStep(meta0: map<string, nat>, meta: map<string, nat>, last: nat, mp: Row, done: set<string>,
                   added: map<nat, seq<Record>>, dels: seq<Pair>, k: string)
    requires done <= mp.Keys && k in mp && k !in done
    requires IndexMoved(meta0, meta, last, mp, done, added) && OldRecordsListed(meta0, mp, done, dels)
    ensures k in meta ==> OldRecordsListed(meta0, mp, done + {k}, dels + [(k, meta[k])])
    ensures k !in meta && mp[k] == "" ==> OldRecordsListed(meta0, mp, done + {k}, dels + [(k, 0)])
    ensures k !in meta && mp[k] != "" ==> OldRecordsListed(meta0, mp, done + {k}, dels)
  {
    forall p | p in dels ensures p.0 != k {
    }
    forall p: Pair | p.0 == k ensures Distinct(dels + [p]) {
      var all := dels + [p];
      forall a, b | 0 <= a < b < |all| ensures all[a].0 != all[b].0 {
        assert all[a] in dels;
      }
    }
  }

  lemma GrowStep(f0: Folder, f: Folder, last: nat, added: map<nat, seq<Record>>, r: Record)
    requires FilesGrown(f0, f, last, added) && ChunkFile(last) in f
    ensures FilesGrown(f0, f[ChunkFile(last) := f[ChunkFile(last)] + Encode(r)], last,
                       added[last := At(added, last) + [r]])
  {
    var grown, g := added[last := At(added, last) + [r]], f[ChunkFile(last) := f[ChunkFile(last)] + Encode(r)];
    var before := RecordsOf(f0, last) + At(added, last);
    EncodeAllSnoc(before, r);
    assert before + [r] == RecordsOf(f0, last) + At(grown, last);
    assert g[ChunkFile(last)] == EncodeAll(RecordsOf(f0, last) + At(grown, last));
    GrowOthers(f0, f, g, last, added, grown);
  }

  lemma GrowOthers(f0: Folder, f: Folder, g: Folder, last: nat, added: map<nat, seq<Record>>,
                   grown: map<nat, seq<Record>>)
    requires FilesGrown(f0, f, last, added) && ChunkFile(last) in f && ChunkFile(last) in g
    requires g[ChunkFile(last)] == EncodeAll(RecordsOf(f0, last) + At(grown, last))
    requires forall name :: name != ChunkFile(last) ==>
               (name in g <==> name in f) && (name in g ==> g[name] == f[name])
    requires forall i :: i != last ==> At(grown, i) == At(added, i)
    ensures FilesGrown(f0, g, last, grown)
  {
  }

  lemma RecordStep(meta: map<string, nat>, last: nat, mp: Row, done: set<string>,
                   added: map<nat, seq<Record>>, r: Record)
    requires done <= mp.Keys && r.key in mp && r.key !in done && r.value == mp[r.key] != ""
    requires RecordsAppended(meta, mp, done, added)
    ensures RecordsAppended(meta[r.key := last], mp, done + {r.key}, added[last := At(added, last) + [r]])
  {
    var grown := added[last := At(added, last) + [r]];
    AppendedDistinct(At(added, last), r);
    var moved := meta[r.key := last];
    forall i, q | q in At(grown, i)
      ensures q.key in done + {r.key} && mp[q.key] == q.value && q.value != "" && q.key in moved && moved[q.key] == i
    {
      assert (q == r && i == last) || q in At(added, i);
    }
    assert forall i :: i != last ==> At(grown, i) == At(added, i);
  }

  lemma IndexStep(meta0: map<string, nat>, meta: map<string, nat>, last: nat, mp: Row, done: set<string>,
                  added: map<nat, seq<Record>>, r: Record)
    requires done <= mp.Keys && r.key in mp && r.key !in done && r.value == mp[r.key] != ""
    requires IndexMoved(meta0, meta, last, mp, done, added)
    ensures IndexMoved(meta0, meta[r.key := last], last, mp, done + {r.key}, added[last := At(added, last) + [r]])
  {
    var grown := added[last := At(added, last) + [r]];
    assert r in At(grown, last);
    forall i, q | q in At(added, i) ensures q in At(grown, i) {
    }
  }

  /** One round of the loop for a key that is stored. */
  lemma PutStep(f0: Folder, f: Folder, meta0: map<string, nat>, meta: map<string, nat>, last: nat,
                mp: Row, done: set<string>, dels: seq<Pair>, added: map<nat, seq<Record>>, k: string)
    requires done <= mp.Keys && k in mp && k !in done && mp[k] != "" && ChunkFile(last) in f
    requires PartAppended(f0, f, meta0, meta, last, mp, done, dels, added)
    ensures var r := Record(k, mp[k]);
            PartAppended(f0, f[ChunkFile(last) := f[ChunkFile(last)] + Encode(r)], meta0, meta[k := last], last,
                         mp, done + {k}, if k in meta then dels + [(k, meta[k])] else dels,
                         added[last := At(added, last) + [r]])
  {
    var r := Record(k, mp[k]);
    ListedStep(meta0, meta, last, mp, done, added, dels, k);
    GrowStep(f0, f, last, added, r);
    RecordStep(meta, last, mp, done, added, r);
    IndexStep(meta0, meta, last, mp, done, added, r);
  }

  /** One round for a key that is deleted. */
  lemma DeleteStep(f0: Folder, f: Folder, meta0: map<string, nat>, meta: map<string, nat>, last: nat,
                   mp: Row, done: set<string>, dels: seq<Pair>, added: map<nat, seq<Record>>, k: string)
    requires done <= mp.Keys && k in mp && k !in done && mp[k] == ""
    requires PartAppended(f0, f, meta0, meta, last, mp, done, dels, added)
    ensures PartAppended(f0, f, meta0, meta - {k}, last, mp, done + {k},
                         dels + [(k, if k in meta then meta[k] else 0)], added)
  {
    hide FilesGrown, OldRecordsListed;
    ListedStep(meta0, meta, last, mp, done, added, dels, k);
    UnindexedRecords(meta, mp, done, added, k);
  }

  lemma UnindexedRecords(meta: map<string, nat>, mp: Row, done: set<string>, added: map<nat, seq<Record>>, k: string)
    requires done <= mp.Keys && k in mp && k !in done
    requires RecordsAppended(meta, mp, done, added)
    ensures RecordsAppended(meta - {k}, mp, done + {k}, added)
  {
    forall i, r | r in At(added, i)
      ensures r.key in done && mp[r.key] == r.value && r.value != "" && r.key in meta - {k} && meta[r.key] == i
    {
    }
  }

  lemma RollFiles(f0: Folder, f: Folder, last: nat, added: map<nat, seq<Record>>)
    requires FilesGrown(f0, f, last, added)
    ensures ChunkFile(last + 1) !in f
    ensures FilesGrown(f0, f[ChunkFile(last + 1) := ""], last + 1, added)
  {
    assert ChunkFile(last + 1) !in f0 && At(added, last + 1) == [];
    assert RecordsOf(f0, last + 1) + At(added, last + 1) == [];
  }

  /** Moving on to the next chunk when the current one is over the limit. */
  lemma RollStep(f0: Folder, f: Folder, meta0: map<string, nat>, meta: map<string, nat>, last: nat,
                 mp: Row, done: set<string>, dels: seq<Pair>, added: map<nat, seq<Record>>)
    requires done <= mp.Keys
    requires PartAppended(f0, f, meta0, meta, last, mp, done, dels, added)
    ensures ChunkFile(last + 1) !in f
    ensures PartAppended(f0, f[ChunkFile(last + 1) := ""], meta0, meta, last + 1, mp, done, dels, added)
  {
    RollFiles(f0, f, last, added);
    assert IndexMoved(meta0, meta, last + 1, mp, done, added);
  }

  // ---- Chunk sizes ----

  /** The append chunk is within the limit; a full one exceeds it by less than one
      record, `slack` being a bound on the size of a record. */
  ghost predicate SizesOk(f: Folder, last: nat, slack: nat) {
    forall i :: ChunkFile(i) in f ==> |f[ChunkFile(i)]| <= SIZE_LIMIT + if i == last then 0 else slack
  }

  lemma {:induction false} DroppingShrinks(rs: seq<Record>, counts: map<string, nat>)
    ensures |EncodeAll(DropCounted(rs, counts))| <= |EncodeAll(rs)|
  {
    if rs != [] {
      if Count(counts, rs[0].key) > 0 {
        DroppingShrinks(rs[1..], counts[rs[0].key := Count(counts, rs[0].key) - 1]);
      } else {
        DroppingShrinks(rs[1..], counts);
        var kept := DropCounted(rs[1..], counts);
        assert ([rs[0]] + kept)[1..] == kept;
      }
    }
  }

  /** Lazy deletion keeps the bound. */
  lemma SizesAfterDeletion(f: Folder, h: Folder, g: Folder, meta: map<string, nat>, last: nat,
                           dels: seq<Pair>, slack: nat)
    requires SizesOk(f, last, slack)
    requires forall i :: ChunkFile(i) in f ==> f[ChunkFile(i)] == EncodeAll(RecordsOf(f, i))
    requires MetaWritten(f, h, meta, last, dels) && LazilyDeleted(h, g, dels)
    ensures SizesOk(g, last, slack)
  {
    forall i | ChunkFile(i) in g
      ensures |g[ChunkFile(i)]| <= SIZE_LIMIT + if i == last then 0 else slack
    {
      DroppingShrinks(RecordsOf(h, i), CountsAt(dels, i));
      assert ChunkFile(i) !in h ==> EncodeAll(RecordsOf(h, i)) == "";
    }
  }

  lemma KeysOfKept(rs: seq<Record>, added: seq<Record>, gone: set<string>)
    requires KeysOk(rs) && KeysOk(added)
    ensures KeysOk(Without(rs, gone) + added)
  {
    var all := Without(rs, gone) + added;
    forall i | 0 <= i < |all| ensures NoNewline(all[i].key) {
      assert i < |Without(rs, gone)| ==> all[i] in rs;
    }
  }

  lemma AppendedKeysOk(meta: map<string, nat>, mp: Row, added: map<nat, seq<Record>>, i: nat)
    requires RecordsAppended(meta, mp, mp.Keys, added)
    requires forall k :: k in mp ==> NoNewline(k)
    ensures KeysOk(At(added, i))
  {
    forall j | 0 <= j < |At(added, i)| ensures NoNewline(At(added, i)[j].key) {
      assert At(added, i)[j] in At(added, i);
    }
  }

  /** No chunk file lies beyond the append index: not even the one that a phantom
      entry makes `lazy_delete` create. */
  lemma ChunksInRange(f0: Folder, f: Folder, h: Folder, g: Folder, meta: map<string, nat>, last: nat,
                      mp: Row, dels: seq<Pair>, added: map<nat, seq<Record>>, i: nat)
    requires FolderOk(f0) && AppendIndexOf(f0) <= last && BatchAppended(f0, f, meta, last, mp, dels, added)
    requires MetaWritten(f, h, meta, last, dels) && LazilyDeleted(h, g, dels)
    requires ChunkFile(i) in g
    ensures i <= last
  {
    if ChunkFile(i) !in h {
      var p :| p in dels && p.1 == i;
    }
  }

  lemma ChunkAfterBatch(f0: Folder, f: Folder, h: Folder, g: Folder, meta: map<string, nat>, last: nat,
                        mp: Row, dels: seq<Pair>, added: map<nat, seq<Record>>, i: nat)
    requires FolderOk(f0) && BatchAppended(f0, f, meta, last, mp, dels, added)
    requires forall k :: k in mp ==> NoNewline(k)
    requires MetaWritten(f, h, meta, last, dels) && LazilyDeleted(h, g, dels)
    ensures RecordsOf(g, i) == Without(RecordsOf(f0, i), mp.Keys) + At(added, i)
    ensures ChunkFile(i) in g ==> IsChunkText(g[ChunkFile(i)])
  {
    var before, new_ := RecordsOf(f0, i), At(added, i);
    AppendedKeysOk(meta, mp, added, i);
    GrownRecords(f0, f, last, added, i);
    assert RecordsOf(h, i) == before + new_;
    SurvivingRecords(f0, meta, mp, dels, added, i);
    var kept := Without(before, mp.Keys) + new_;
    assert KeysOk(before);
    KeysOfKept(before, new_, mp.Keys);
    ChunkRoundTrip(kept);
    if ChunkFile(i) in g {
      assert g[ChunkFile(i)] == EncodeAll(kept);
    } else {
      assert ChunkFile(i) !in f && ChunkFile(i) !in f0;
      assert before == [] && new_ == [];
    }
  }

  lemma DistinctParts(a: seq<Record>, b: seq<Record>)
    requires NoDuplicates(a) && NoDuplicates(b)
    requires forall r, q :: r in a && q in b ==> r.key != q.key
    ensures NoDuplicates(a + b)
  {
    forall i, j | 0 <= i < j < |a + b| ensures (a + b)[i].key != (a + b)[j].key {
      if i < |a| <= j {
        assert a[i] in a && b[j - |a|] in b;
      }
    }
  }

  lemma MembershipOf(rs: seq<Record>, r: Record)
    requires r in rs
    ensures HasKey(rs, r.key)
  {
    var j :| 0 <= j < |rs| && rs[j] == r;
  }

  lemma ChunkAgreesAfterBatch(meta0: map<string, nat>, meta: map<string, nat>, last: nat, mp: Row,
                              added: map<nat, seq<Record>>, i: nat, before: seq<Record>)
    requires ChunkAgrees(meta0, i, before)
    requires IndexMoved(meta0, meta, last, mp, mp.Keys, added)
    requires RecordsAppended(meta, mp, mp.Keys, added)
    ensures ChunkAgrees(meta, i, Without(before, mp.Keys) + At(added, i))
  {
    var kept := Without(before, mp.Keys);
    WithoutKeepsDistinct(before, mp.Keys);
    DistinctParts(kept, At(added, i));
    forall r | r in kept + At(added, i) ensures r.key in meta && meta[r.key] == i && r.value != "" {
      assert r in kept || r in At(added, i);
    }
  }

  /** The record that the moved index names for a key holds that key's latest value. */
  lemma RecordAfterBatch(meta0: map<string, nat>, meta: map<string, nat>, last: nat, mp: Row,
                         added: map<nat, seq<Record>>, k: string, before: seq<Record>)
    returns (r: Record)
    requires k in meta
    requires k !in mp ==> HasKey(before, k)
    requires IndexMoved(meta0, meta, last, mp, mp.Keys, added)
    ensures r.key == k && r in Without(before, mp.Keys) + At(added, meta[k])
    ensures if k in mp then r.value == mp[k] else r in before
  {
    if k in mp {
      r := Record(k, mp[k]);
    } else {
      var j :| 0 <= j < |before| && before[j].key == k;
      r := before[j];
    }
  }

  lemma LastValueIs(meta: map<string, nat>, i: nat, rs: seq<Record>, r: Record)
    requires ChunkAgrees(meta, i, rs) && r in rs
    ensures ValueIn(rs, r.key) == r.value
  {
    var j :| 0 <= j < |rs| && rs[j] == r;
    LastValueOfUnique(rs, j);
  }

  /** Key by key: what the folder stores for `k` before and after a batch. */
  lemma KeyAfterBatch(meta0: map<string, nat>, meta: map<string, nat>, last: nat, mp: Row,
                      added: map<nat, seq<Record>>, k: string, before: seq<Record>)
    requires k in meta && meta[k] <= last
    requires k !in mp ==> HasKey(before, k)
    requires ChunkAgrees(meta0, meta[k], before)
    requires IndexMoved(meta0, meta, last, mp, mp.Keys, added)
    requires RecordsAppended(meta, mp, mp.Keys, added)
    ensures var after := Without(before, mp.Keys) + At(added, meta[k]);
            && HasKey(after, k)
            && ValueIn(after, k) == if k in mp then mp[k] else ValueIn(before, k)
  {
    var after := Without(before, mp.Keys) + At(added, meta[k]);
    var r := RecordAfterBatch(meta0, meta, last, mp, added, k, before);
    MembershipOf(after, r);
    ChunkAgreesAfterBatch(meta0, meta, last, mp, added, meta[k], before);
    LastValueIs(meta, meta[k], after, r);
    if k !in mp {
      LastValueIs(meta0, meta[k], before, r);
    }
  }

  /** After a batch the index again names, for every key, its one record. */
  lemma IndexAfterBatch(f0: Folder, g: Folder, meta0: map<string, nat>, meta: map<string, nat>, last: nat,
                        mp: Row, added: map<nat, seq<Record>>)
    requires IndexAgrees(f0, meta0, last)
    requires IndexMoved(meta0, meta, last, mp, mp.Keys, added)
    requires RecordsAppended(meta, mp, mp.Keys, added)
    requires forall k :: k in mp ==> NoNewline(k)
    requires forall i: nat :: RecordsOf(g, i) == Without(RecordsOf(f0, i), mp.Keys) + At(added, i)
    requires forall i: nat :: ChunkFile(i) in g ==> i <= last
    ensures IndexAgrees(g, meta, last)
    ensures forall k :: k in meta ==>
              ValueIn(RecordsOf(g, meta[k]), k) == if k in mp then mp[k] else ValueIn(RecordsOf(f0, meta0[k]), k)
  {
    forall i: nat ensures ChunkAgrees(meta, i, RecordsOf(g, i)) {
      ChunkAgreesAfterBatch(meta0, meta, last, mp, added, i, RecordsOf(f0, i));
    }
    forall k | k in meta
      ensures NoNewline(k) && meta[k] <= last && HasKey(RecordsOf(g, meta[k]), k)
      ensures ValueIn(RecordsOf(g, meta[k]), k) == if k in mp then mp[k] else ValueIn(RecordsOf(f0, meta0[k]), k)
    {
      KeyAfterBatch(meta0, meta, last, mp, added, k, RecordsOf(f0, meta[k]));
    }
  }

  lemma TextsAfterBatch(f: Folder, h: Folder, g: Folder, meta: map<string, nat>, last: nat, dels: seq<Pair>)
    requires MetaWritten(f, h, meta, last, dels) && LazilyDeleted(h, g, dels)
    requires forall i :: ChunkFile(i) in g ==> IsChunkText(g[ChunkFile(i)])
    ensures TextsOk(g) && MetadataOf(g) == meta && AppendIndexOf(g) == last
  {
    assert g[MetadataFile] == h[MetadataFile] && g[IndexFile] == h[IndexFile];
  }

  lemma OverlayByKey(row: Row, after: Row, mp: Row)
    requires forall k :: k in after <==> if k in mp then mp[k] != "" else k in row
    requires forall k :: k in after ==> after[k] == if k in mp then mp[k] else row[k]
    ensures after == Overlay(row, mp)
  {
  }

  lemma AllChunksAfterBatch(f0: Folder, f: Folder, h: Folder, g: Folder, meta: map<string, nat>, last: nat,
                            mp: Row, dels: seq<Pair>, added: map<nat, seq<Record>>)
    requires FolderOk(f0) && AppendIndexOf(f0) <= last && BatchAppended(f0, f, meta, last, mp, dels, added)
    requires forall k :: k in mp ==> NoNewline(k)
    requires MetaWritten(f, h, meta, last, dels) && LazilyDeleted(h, g, dels)
    ensures forall i: nat :: RecordsOf(g, i) == Without(RecordsOf(f0, i), mp.Keys) + At(added, i)
    ensures forall i: nat :: ChunkFile(i) in g ==> IsChunkText(g[ChunkFile(i)]) && i <= last
  {
    forall i: nat
      ensures RecordsOf(g, i) == Without(RecordsOf(f0, i), mp.Keys) + At(added, i)
      ensures ChunkFile(i) in g ==> IsChunkText(g[ChunkFile(i)])
    {
      ChunkAfterBatch(f0, f, h, g, meta, last, mp, dels, added, i);
    }
    forall i: nat | ChunkFile(i) in g ensures i <= last {
      ChunksInRange(f0, f, h, g, meta, last, mp, dels, added, i);
    }
  }

  /** The main result about a batch: the folder is well formed again and stores the
      old pairs with the batch laid over them. */
  lemma BatchRefinesOverlay(f0: Folder, f: Folder, h: Folder, g: Folder, meta: map<string, nat>, last: nat,
                            mp: Row, dels: seq<Pair>, added: map<nat, seq<Record>>)
    requires FolderOk(f0) && AppendIndexOf(f0) <= last && BatchAppended(f0, f, meta, last, mp, dels, added)
    requires forall k :: k in mp ==> NoNewline(k)
    requires MetaWritten(f, h, meta, last, dels) && LazilyDeleted(h, g, dels)
    ensures FolderOk(g) && MetadataOf(g) == meta && AppendIndexOf(g) == last
    ensures Contents(g) == Overlay(Contents(f0), mp)
  {
    var meta0 := MetadataOf(f0);
    AllChunksAfterBatch(f0, f, h, g, meta, last, mp, dels, added);
    TextsAfterBatch(f, h, g, meta, last, dels);
    assert IndexAgrees(f0, meta0, last);
    IndexAfterBatch(f0, g, meta0, meta, last, mp, added);
    OverlayByKey(Contents(f0), Contents(g), mp);
  }
}
