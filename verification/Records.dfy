/** The byte format of one chunk file (backend/chunk.h): a concatenation of
    records "key, newline, size, newline, value bytes". The value is read back
    by its size, so it may hold any byte; only keys must be free of newlines. */
module Records {
  import opened Text

  datatype Record = Record(key: string, value: string)

  function Encode(r: Record): string {
    r.key + "\n" + Dec(|r.value|) + "\n" + r.value
  }

  function EncodeAll(rs: seq<Record>): string {
    if rs == [] then "" else Encode(rs[0]) + EncodeAll(rs[1..])
  }

  predicate KeysOk(rs: seq<Record>) {
    forall i :: 0 <= i < |rs| ==> NoNewline(rs[i].key)
  }

  // ---- One step of a reader: getline, getline, then `size` raw bytes ----

  function KeyAt(stream: string): string {
    Line(stream)
  }

  function SizeAt(stream: string): string {
    Line(AfterLine(stream))
  }

  function BodyAt(stream: string): (body: string)
    ensures stream != "" ==> |body| < |stream|
  {
    AfterLine(AfterLine(stream))
  }

  /** The records a reader finds; a tail that is no complete record is ignored. */
  function Decode(file: string): seq<Record>
    decreases |file|
  {
    if file == "" || !IsNumber(SizeAt(file)) || Stoull(SizeAt(file)) > |BodyAt(file)| then []
    else
      var size := Stoull(SizeAt(file));
      [Record(KeyAt(file), BodyAt(file)[..size])] + Decode(BodyAt(file)[size..])
  }

  /** A file that holds whole records and nothing else. */
  predicate IsChunkText(file: string) {
    file == EncodeAll(Decode(file)) && KeysOk(Decode(file))
  }

  lemma ReadEncoded(r: Record, tail: string)
    requires NoNewline(r.key)
    ensures var file := Encode(r) + tail;
            && file != ""
            && KeyAt(file) == r.key
            && SizeAt(file) == Dec(|r.value|)
            && Stoull(SizeAt(file)) == |r.value|
            && BodyAt(file) == r.value + tail
            && BodyAt(file)[..|r.value|] == r.value
            && BodyAt(file)[|r.value|..] == tail
  {
    var file := Encode(r) + tail;
    var afterKey := Dec(|r.value|) + "\n" + (r.value + tail);
    assert file == r.key + "\n" + afterKey;
    LineOf(r.key, afterKey);
    DigitsHaveNoNewline(Dec(|r.value|));
    LineOf(Dec(|r.value|), r.value + tail);
    DecRoundTrip(|r.value|);
  }

  lemma DecodeCons(r: Record, tail: string)
    requires NoNewline(r.key)
    ensures Decode(Encode(r) + tail) == [r] + Decode(tail)
  {
    ReadEncoded(r, tail);
  }

  /** Whatever was appended record by record is what is loaded. */
  lemma {:induction false} ChunkRoundTrip(rs: seq<Record>)
    requires KeysOk(rs)
    ensures Decode(EncodeAll(rs)) == rs
    ensures IsChunkText(EncodeAll(rs))
  {
    if rs != [] {
      ChunkRoundTrip(rs[1..]);
      DecodeCons(rs[0], EncodeAll(rs[1..]));
    }
  }

  lemma {:induction false} EncodeAllAppend(a: seq<Record>, b: seq<Record>)
    ensures EncodeAll(a + b) == EncodeAll(a) + EncodeAll(b)
  {
    if a == [] {
      assert a + b == b;
    } else {
      assert (a + b)[1..] == a[1..] + b;
      EncodeAllAppend(a[1..], b);
    }
  }

  lemma EncodeAllSnoc(rs: seq<Record>, r: Record)
    ensures EncodeAll(rs + [r]) == EncodeAll(rs) + Encode(r)
  {
    EncodeAllAppend(rs, [r]);
    assert EncodeAll([r]) == Encode(r) + "";
  }

  // ---- Readers ----

  /** The value of the last record with this key. */
  function LastValue(rs: seq<Record>, key: string): Option<string> {
    if rs == [] then None
    else if rs[|rs| - 1].key == key then Some(rs[|rs| - 1].value)
    else LastValue(rs[..|rs| - 1], key)
  }

  lemma LastValueSnoc(rs: seq<Record>, r: Record, key: string)
    ensures LastValue(rs + [r], key) == if r.key == key then Some(r.value) else LastValue(rs, key)
  {
    assert (rs + [r])[..|rs|] == rs;
  }

  predicate NoDuplicates(rs: seq<Record>) {
    forall i, j :: 0 <= i < j < |rs| ==> rs[i].key != rs[j].key
  }

  lemma {:induction false} LastValueOfUnique(rs: seq<Record>, j: nat)
    requires NoDuplicates(rs) && j < |rs|
    ensures LastValue(rs, rs[j].key) == Some(rs[j].value)
  {
    if j < |rs| - 1 {
      LastValueOfUnique(rs[..|rs| - 1], j);
    }
  }

  /** getline, getline and stoull: what both readers do at the start of a record. */
  method ReadHeader(stream: string, ghost r: Record, ghost tail: string)
    returns (key: string, size: nat, body: string)
    requires stream == Encode(r) + tail && NoNewline(r.key)
    ensures key == r.key && size == |r.value| && body == r.value + tail
    ensures |body| < |stream| && body == stream[|stream| - |body|..]
  {
    ReadEncoded(r, tail);
    key, size, body := KeyAt(stream), Stoull(SizeAt(stream)), BodyAt(stream);
    assert stream == (r.key + "\n" + Dec(|r.value|) + "\n") + body;
  }

  /** backend/chunk.h:183-197: reads record after record until the stream ends and
      returns exactly the records the file was written from. */
  method LoadChunk(file: string, ghost written: seq<Record>) returns (ret: seq<Record>)
    requires file == EncodeAll(written) && KeysOk(written)
    ensures ret == written
  {
    var stream := file;
    ret := [];
    ghost var n := 0;
    assert written[0..] == written;
    while stream != ""
      invariant n <= |written|
      invariant stream == EncodeAll(written[n..])
      invariant ret == written[..n]
      decreases |stream|
    {
      ghost var r, tail := written[n], EncodeAll(written[n + 1..]);
      assert written[n..][1..] == written[n + 1..];
      var key, size, body := ReadHeader(stream, r, tail);
      assert body[..size] == r.value && body[size..] == tail;
      ret := ret + [Record(key, body[..size])];
      stream := body[size..];
      n := n + 1;
    }
  }

  /** backend/chunk.h:76-94: the scan of `get_value`, which seeks over the values
      of other keys and keeps the last match. The stream is what lies behind the
      read position. */
  method ScanForKey(file: string, key: string, ghost written: seq<Record>) returns (value: Option<string>)
    requires file == EncodeAll(written) && KeysOk(written)
    ensures value == LastValue(written, key)
  {
    var stream := file;
    value := None;
    ghost var n := 0;
    assert written[..0] == [] && written[0..] == written;
    while stream != ""
      invariant n <= |written|
      invariant stream == EncodeAll(written[n..])
      invariant value == LastValue(written[..n], key)
      decreases |stream|
    {
      ghost var r, tail := written[n], EncodeAll(written[n + 1..]);
      assert written[n..][1..] == written[n + 1..];
      var lineKey, size, body := ReadHeader(stream, r, tail);
      assert body[..size] == r.value && body[size..] == tail;
      if lineKey == key {
        value := Some(body[..size]);
      }
      LastValueSnoc(written[..n], r, key);
      assert written[..n + 1] == written[..n] + [r];
      stream := body[size..];
      n := n + 1;
    }
    assert written[..n] == written;
  }

  // ---- Lazy deletion ----

  function Count(counts: map<string, nat>, key: string): nat {
    if key in counts then counts[key] else 0
  }

  /** Erases the first `counts[key]` records of every key. */
  function DropCounted(rs: seq<Record>, counts: map<string, nat>): seq<Record>
    decreases |rs|
  {
    if rs == [] then []
    else if Count(counts, rs[0].key) > 0 then
      DropCounted(rs[1..], counts[rs[0].key := Count(counts, rs[0].key) - 1])
    else [rs[0]] + DropCounted(rs[1..], counts)
  }

  function Without(rs: seq<Record>, gone: set<string>): (kept: seq<Record>)
    ensures forall i :: 0 <= i < |kept| ==> kept[i] in rs && kept[i].key !in gone
    ensures forall r :: r in rs && r.key !in gone ==> r in kept
  {
    if rs == [] then []
    else if rs[0].key in gone then Without(rs[1..], gone)
    else [rs[0]] + Without(rs[1..], gone)
  }

  lemma {:induction false} WithoutKeepsDistinct(rs: seq<Record>, gone: set<string>)
    requires NoDuplicates(rs)
    ensures NoDuplicates(Without(rs, gone))
  {
    if rs != [] {
      WithoutKeepsDistinct(rs[1..], gone);
    }
  }

  function Marked(counts: map<string, nat>): set<string> {
    set k | k in counts && counts[k] > 0
  }

  lemma {:induction false} DropNothing(rs: seq<Record>, counts: map<string, nat>)
    requires forall r :: r in rs ==> Count(counts, r.key) == 0
    ensures DropCounted(rs, counts) == rs
  {
    if rs != [] {
      DropNothing(rs[1..], counts);
    }
  }

  /** The point of "drop the first n": when each marked key is marked once, has at
      most one old record, and has a new record only if it has an old one, then
      exactly the old records go and every appended record stays. */
  lemma {:induction false} DropSparesAppended(old_: seq<Record>, appended: seq<Record>, counts: map<string, nat>)
    requires NoDuplicates(old_)
    requires forall k :: k in counts ==> counts[k] <= 1
    requires forall r :: r in appended && Count(counts, r.key) > 0 ==> exists o :: o in old_ && o.key == r.key
    ensures DropCounted(old_ + appended, counts) == Without(old_, Marked(counts)) + appended
  {
    if old_ == [] {
      assert old_ + appended == appended;
      DropNothing(appended, counts);
    } else {
      var o := old_[0];
      var less := counts[o.key := 0];
      assert (old_ + appended)[1..] == old_[1..] + appended;
      forall r | r in appended && Count(less, r.key) > 0 ensures exists o' :: o' in old_[1..] && o'.key == r.key {
        var o' :| o' in old_ && o'.key == r.key;
        assert o' != o && o' in old_[1..];
      }
      if Count(counts, o.key) > 0 {
        DropSparesAppended(old_[1..], appended, less);
        WithoutUnaffected(old_[1..], Marked(less), Marked(counts));
      } else {
        DropSparesAppended(old_[1..], appended, counts);
        assert o.key !in Marked(counts);
      }
    }
  }

  lemma {:induction false} WithoutUnaffected(rs: seq<Record>, a: set<string>, b: set<string>)
    requires forall r :: r in rs ==> (r.key in a <==> r.key in b)
    ensures Without(rs, a) == Without(rs, b)
  {
    if rs != [] {
      WithoutUnaffected(rs[1..], a, b);
    }
  }

  /** backend/chunk.h:228-236: erasing from the vector while walking it. */
  method EraseCounted(loaded: seq<Record>, counts: map<string, nat>) returns (vec: seq<Record>)
    ensures vec == DropCounted(loaded, counts)
  {
    vec := loaded;
    var left: map<string, nat> := counts;
    var j := 0;
    while j < |vec|
      invariant j <= |vec|
      invariant DropCounted(loaded, counts) == vec[..j] + DropCounted(vec[j..], left)
      decreases |vec| - j
    {
      assert vec[j..][0] == vec[j] && vec[j..][1..] == vec[j + 1..];
      if Count(left, vec[j].key) > 0 {
        left := left[vec[j].key := Count(left, vec[j].key) - 1];
        ghost var before := vec;
        vec := vec[..j] + vec[j + 1..];
        assert vec[..j] == before[..j] && vec[j..] == before[j + 1..];
      } else {
        assert vec[..j + 1] == vec[..j] + [vec[j]];
        j := j + 1;
      }
    }
    assert vec[..j] == vec;
  }
}
