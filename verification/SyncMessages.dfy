/** The messages of a full synchronisation (backend/cache.h:28-30, 603-754, 932-982). Each
    folder and each file is sent as one text that starts with a header naming its path; the
    receiver finds the header with a regular expression, whose path class decides which
    users can be carried over. */
module SyncMessages {
  import opened Text
  import opened ChunkFolder
  import opened Regex
  import opened LogCodec

  /** The files of one node. */
  datatype Image = Image(log: Option<string>, folders: map<string, Folder>)

  const NO_FILES: Image := Image(None, map[])

  const SYNC_DONE: string := "SYNC DONE"
  const SYNC_ERROR: string := "SYNC ERROR"

  // ---- Paths below the storage directory ----

  function NameText(name: FileName): string {
    match name
    case IndexFile => "chunk_index"
    case MetadataFile => "chunk_metadata"
    case DeleteList => "delete_list"
    case ChunkFile(n) => "chunk-" + Dec(n)
  }

  /** The file that a node looks for under this name, if there is one. */
  function NameOf(text: string): Option<FileName> {
    if text == "chunk_index" then Some(IndexFile)
    else if text == "chunk_metadata" then Some(MetadataFile)
    else if text == "delete_list" then Some(DeleteList)
    else if "chunk-" <= text && IsNumber(text[6..]) && Dec(ParseDec(text[6..])) == text[6..] then
      Some(ChunkFile(ParseDec(text[6..])))
    else None
  }

  lemma NameRoundTrip(name: FileName)
    ensures NameOf(NameText(name)) == Some(name)
  {
    if name.ChunkFile? {
      var text := NameText(name);
      DecRoundTrip(name.n);
      assert text[6..] == Dec(name.n) && text[5] == '-';
      assert "chunk_index"[5] == "chunk_metadata"[5] == '_' && "delete_list"[5] == 'e';
    }
  }

  function PathTo(user: string, name: FileName): string {
    user + "/" + NameText(name)
  }

  /** The last separator splits a path. */
  function SplitPath(path: string): Option<(string, string)> {
    if path == "" then None
    else
      var front, c := path[..|path| - 1], path[|path| - 1];
      if c == '/' then Some((front, ""))
      else match SplitPath(front)
           case None => None
           case Some((dir, base)) => Some((dir, base + [c]))
  }

  lemma {:induction false} SplitJoined(dir: string, base: string)
    requires '/' !in base
    ensures SplitPath(dir + "/" + base) == Some((dir, base))
  {
    var path := dir + "/" + base;
    if base == "" {
      assert path[..|path| - 1] == dir;
    } else {
      var front := base[..|base| - 1];
      assert path[..|path| - 1] == dir + "/" + front;
      SplitJoined(dir, front);
      assert front + [base[|base| - 1]] == base;
    }
  }

  lemma NamesHaveNoSlash(name: FileName)
    ensures '/' !in NameText(name) && AllIn(PathChars, NameText(name))
  {
    if name.ChunkFile? {
      assert forall c :: c in Dec(name.n) ==> IsDigit(c);
      assert AllIn(PathChars, "chunk-");
    }
  }

  /** Names that a header can carry. */
  predicate IsPath(s: string) {
    s != "" && AllIn(PathChars, s)
  }

  /** Without a separator they are the names of the log's headers. */
  lemma PathsAreNames(s: string)
    requires '/' !in s
    ensures IsPath(s) <==> IsName(s)
  {
    assert forall i :: 0 <= i < |s| ==> s[i] in s;
  }

  lemma PathToIsPath(user: string, name: FileName)
    requires IsPath(user)
    ensures IsPath(PathTo(user, name)) && PathTo(user, name) != "logging"
    ensures SplitPath(PathTo(user, name)) == Some((user, NameText(name)))
  {
    NamesHaveNoSlash(name);
    SplitJoined(user, NameText(name));
    assert PathTo(user, name)[|user|] == '/' && '/' !in "logging";
  }

  // ---- The header ----

  const TRANSFER: Pattern :=
    Word("KvStoreSync", Word("Filename:", Field(PathChars, Word("Type:", Field(Letters, Word("size:",
    Run(Digits, 1, Lit("\r\n", End))))))))

  function AfterPath(kind: string, size: nat): string {
    Spaced("Type:", Spaced(kind, Spaced("size:", Dec(size) + "\r\n")))
  }

  function TransferHeader(path: string, kind: string, size: nat): string {
    Spaced("KvStoreSync", Spaced("Filename:", Spaced(path, AfterPath(kind, size))))
  }

  lemma SizeDenotes(size: nat)
    ensures Denotes(Run(Digits, 1, Lit("\r\n", End)), [Dec(size)], Dec(size) + "\r\n")
  {
    DigitsAreDigits(Dec(size));
    assert "\r\n"[2..] == "";
    LitStep("\r\n", End, [], "");
    assert "\r\n" + "" == "\r\n";
    RunStep(Digits, 1, Lit("\r\n", End), Dec(size), [], "\r\n");
    assert [Dec(size)] + [] == [Dec(size)];
  }

  lemma TransferDenotes(path: string, kind: string, size: nat)
    requires IsPath(path) && kind != "" && AllIn(Letters, kind)
    ensures Denotes(TRANSFER, [path, kind, Dec(size)], TransferHeader(path, kind, size))
  {
    hide Denotes, AllIn, Dec;
    var p0, g0, t0 := Run(Digits, 1, Lit("\r\n", End)), [Dec(size)], Dec(size) + "\r\n";
    SizeDenotes(size);
    WordStep("size:", p0, g0, t0);
    var p1, t1 := Word("size:", p0), Spaced("size:", t0);
    FieldStep(Letters, p1, kind, g0, t1);
    var p2, g2, t2 := Field(Letters, p1), [kind] + g0, Spaced(kind, t1);
    WordStep("Type:", p2, g2, t2);
    var p3, t3 := Word("Type:", p2), Spaced("Type:", t2);
    FieldStep(PathChars, p3, path, g2, t3);
    var p4, g4, t4 := Field(PathChars, p3), [path] + g2, Spaced(path, t3);
    WordStep("Filename:", p4, g4, t4);
    WordStep("KvStoreSync", Word("Filename:", p4), g4, Spaced("Filename:", t4));
    assert g4 == [path, kind, Dec(size)];
  }

  lemma TransferSeparated(tail: string)
    ensures Separated(TRANSFER) && Bounded(TRANSFER, tail)
  {
    var p0 := Run(Digits, 1, Lit("\r\n", End));
    assert Separated(p0) && Bounded(p0, tail);
    WordSeparated("size:", p0, tail);
    FieldSeparated(Letters, Word("size:", p0), tail);
    var p1 := Word("Type:", Field(Letters, Word("size:", p0)));
    WordSeparated("Type:", Field(Letters, Word("size:", p0)), tail);
    FieldSeparated(PathChars, p1, tail);
    WordSeparated("Filename:", Field(PathChars, p1), tail);
    WordSeparated("KvStoreSync", Word("Filename:", Field(PathChars, p1)), tail);
  }

  /** A path of the class is read back, with everything behind the header as content. */
  lemma HeaderRead(path: string, kind: string, size: nat, content: string)
    requires IsPath(path) && kind != "" && AllIn(Letters, kind)
    ensures Search(TRANSFER, TransferHeader(path, kind, size) + content) ==
            Some(Matched([path, kind, Dec(size)], content))
  {
    hide Denotes, MatchHere, TransferHeader, Dec;
    TransferDenotes(path, kind, size);
    TransferSeparated(content);
    ScannerComplete(TRANSFER, [path, kind, Dec(size)], TransferHeader(path, kind, size), content);
  }

  /** No other path is ever read, whatever the message. */
  lemma OnlyPathsRead(message: string)
    requires Search(TRANSFER, message).Some?
    ensures var groups := Search(TRANSFER, message).value.groups; |groups| >= 2 && IsPath(groups[0])
  {
    hide Search, Denotes, AllIn;
    var groups := Search(TRANSFER, message).value.groups;
    var t := SearchSound(TRANSFER, message);
    var p2 := Field(Letters, Word("size:", Run(Digits, 1, Lit("\r\n", End))));
    var p1 := Word("Type:", p2);
    t := WordInverse("KvStoreSync", Word("Filename:", Field(PathChars, p1)), groups, t);
    t := WordInverse("Filename:", Field(PathChars, p1), groups, t);
    t := FieldInverse(PathChars, p1, groups, t);
    t := WordInverse("Type:", p2, groups[1..], t);
    t := FieldInverse(Letters, Word("size:", Run(Digits, 1, Lit("\r\n", End))), groups[1..], t);
  }

  // ---- Names outside the class ----

  const SYNC_WORD: string := "KvStoreSync"

  lemma SyncWordFacts()
    ensures |SYNC_WORD| == 11 && SYNC_WORD[0] == 'K' && FreeOf(' ', SYNC_WORD) && FreeOf('K', SYNC_WORD[1..])
  {
  }

  lemma BlankAfterWord(s: string, k: nat)
    requires k < |s| && s[k] == ' ' && SYNC_WORD <= s
    ensures k >= 11
  {
    SyncWordFacts();
  }

  lemma TransferNeeds(s: string)
    requires MatchHere(TRANSFER, s).Some?
    ensures SYNC_WORD <= s && |s| >= 12 && IsSpace(s[11]) && "Filename:" <= s[12..]
  {
    SyncWordFacts();
    assert s[11..][1..] == s[12..];
  }

  /** A header begins within a word only at its end, and if "Filename:" follows. */
  lemma NoTransferWithin(word: string, text: string, i: nat)
    requires NoSpaces(word) && i <= |word|
    requires i == |word| || word[i] != 'K' || !("Filename:" <= text)
    ensures MatchHere(TRANSFER, Spaced(word, text)[i..]).None?
  {
    hide MatchHere;
    var s, k := Spaced(word, text)[i..], |word| - i;
    assert s[k] == ' ' && s[k + 1..] == text;
    assert forall j :: 0 <= j < k ==> s[j] == word[i + j];
    SyncWordFacts();
    if MatchHere(TRANSFER, s).Some? {
      TransferNeeds(s);
      BlankAfterWord(s, k);
    }
  }

  lemma WordSkipped(word: string, text: string)
    requires NoSpaces(word) && (FreeOf('K', word) || !("Filename:" <= text))
    ensures Search(TRANSFER, Spaced(word, text)) == Search(TRANSFER, text)
  {
    hide MatchHere;
    var before := word + " ";
    assert Spaced(word, text) == before + text;
    forall i | 0 <= i < |before| ensures MatchHere(TRANSFER, (before + text)[i..]).None? {
      NoTransferWithin(word, text, i);
    }
    SearchSkips(TRANSFER, before, text);
  }

  lemma {:induction false} NothingWithoutK(text: string)
    requires FreeOf('K', text)
    ensures Search(TRANSFER, text).None?
  {
    assert text != "" ==> text[0] != "KvStoreSync"[0];
    if text != "" {
      NothingWithoutK(text[1..]);
    }
  }

  lemma NoTransferAtStart(path: string, kind: string, size: nat)
    requires NoSpaces(path) && !IsPath(path)
    ensures MatchHere(TRANSFER, TransferHeader(path, kind, size)).None?
  {
    hide MatchHere, AllIn, AfterPath;
    var next, rest := TRANSFER.next.next.next.next.next.next, AfterPath(kind, size);
    FieldFails(PathChars, next, path, rest);
    WordFails("Filename:", Field(PathChars, next), Spaced(path, rest));
    WordFails("KvStoreSync", Word("Filename:", Field(PathChars, next)), Spaced("Filename:", Spaced(path, rest)));
  }

  lemma DirEndFree()
    ensures FreeOf('K', AfterPath("DIR", 0)) && AfterPath("DIR", 0)[0] == 'T'
  {
    var end := Dec(0) + "\r\n";
    assert FreeOf('K', end);
    hide Dec, Spaced;
    SpacedFree('K', "size:", end);
    SpacedFree('K', "DIR", Spaced("size:", end));
    SpacedFree('K', "Type:", Spaced("DIR", Spaced("size:", end)));
    SpacedStarts("Type:", Spaced("DIR", Spaced("size:", end)));
  }

  lemma SpacedStarts(word: string, text: string)
    requires word != ""
    ensures Spaced(word, text)[0] == word[0]
  {
  }

  /** The message of a folder whose name has no blank, but a character outside the class,
      holds no header at all. */
  lemma BlankFreeUnread(path: string)
    requires NoSpaces(path) && !IsPath(path)
    ensures Search(TRANSFER, TransferHeader(path, "DIR", 0)).None?
  {
    DirEndFree();
    NoTransferAtStart(path, "DIR", 0);
    assert "Filename:"[0] == 'F' && FreeOf('K', "Filename:") && NoSpaces("Filename:");
    hide MatchHere, Search, AfterPath, AllIn, TRANSFER;
    var rest := AfterPath("DIR", 0);
    NothingWithoutK(rest);
    WordSkipped(path, rest);
    WordSkipped("Filename:", Spaced(path, rest));
    FirstWordSkipped(Spaced("Filename:", Spaced(path, rest)));
  }

  lemma FirstWordSkipped(text: string)
    requires MatchHere(TRANSFER, Spaced("KvStoreSync", text)).None?
    ensures Search(TRANSFER, Spaced("KvStoreSync", text)) == Search(TRANSFER, text)
  {
    hide MatchHere;
    SyncWordFacts();
    var before := "KvStoreSync" + " ";
    assert Spaced("KvStoreSync", text) == before + text && NoSpaces("KvStoreSync");
    forall i | 0 <= i < |before| ensures MatchHere(TRANSFER, (before + text)[i..]).None? {
      if i == 0 {
        assert (before + text)[0..] == Spaced("KvStoreSync", text);
      } else {
        assert i < 11 ==> SYNC_WORD[1..][i - 1] == SYNC_WORD[i];
        NoTransferWithin("KvStoreSync", text, i);
      }
    }
    SearchSkips(TRANSFER, before, text);
  }

  // ---- Receiving ----

  function DirText(path: string): string {
    TransferHeader(path, "DIR", 0)
  }

  function FileText(path: string, content: string): string {
    TransferHeader(path, "FILE", |content|) + content
  }

  function FolderOr(image: Image, user: string): Folder {
    if user in image.folders then image.folders[user] else map[]
  }

  /** backend/cache.h:638-676. Creating a folder that exists is an error; a file's folder
      is created with it; a file that is neither the log nor in a folder is never read. */
  function Store(image: Image, path: string, kind: string, content: string): Option<Image> {
    if kind == "DIR" then
      if path in image.folders then None else Some(image.(folders := image.folders[path := map[]]))
    else if kind != "FILE" then None
    else if path == "logging" then Some(image.(log := Some(content)))
    else
      match SplitPath(path)
      case None => Some(image)
      case Some((dir, base)) =>
        if dir == "" then Some(image)
        else
          var f := FolderOr(image, dir);
          Some(image.(folders := image.folders[dir := match NameOf(base)
                                                     case Some(name) => f[name := content]
                                                     case None => f]))
  }

  /** One message; without a header it ends the synchronisation. */
  function ReceiveFile(image: Image, message: string): Option<Image> {
    match Search(TRANSFER, message)
    case None => None
    case Some(m) => OnlyPathsRead(message); Store(image, m.groups[0], m.groups[1], m.rest)
  }

  /** The loop: whether all files were received, and what is on disk when it ends. */
  function ReceiveFiles(image: Image, messages: seq<string>): (Image, bool)
    decreases |messages|
  {
    if messages == [] then (image, false)
    else if messages[0] == SYNC_DONE then (image, true)
    else if messages[0] == SYNC_ERROR then (image, false)
    else
      match ReceiveFile(image, messages[0])
      case None => (image, false)
      case Some(next) => ReceiveFiles(next, messages[1..])
  }


  lemma FolderRead(image: Image, user: string)
    requires IsPath(user)
    ensures ReceiveFile(image, DirText(user)) ==
            if user in image.folders then None else Some(image.(folders := image.folders[user := map[]]))
  {
    assert AllIn(Letters, "DIR");
    hide TransferHeader, Search, AllIn;
    HeaderRead(user, "DIR", 0, "");
    assert DirText(user) + "" == DirText(user);
  }

  lemma FileRead(image: Image, path: string, content: string)
    requires IsPath(path)
    ensures ReceiveFile(image, FileText(path, content)) == Store(image, path, "FILE", content)
  {
    assert AllIn(Letters, "FILE");
    hide TransferHeader, Search, AllIn, Store;
    HeaderRead(path, "FILE", |content|, content);
  }

  /** A new folder without a blank in its name is received if and only if the header's
      class has the name. */
  lemma FolderReceivedIff(image: Image, user: string)
    requires NoSpaces(user) && user !in image.folders
    ensures ReceiveFile(image, DirText(user)) ==
            if IsPath(user) then Some(image.(folders := image.folders[user := map[]])) else None
  {
    hide TransferHeader, Search, AllIn, NoSpaces;
    if IsPath(user) {
      FolderRead(image, user);
    } else {
      BlankFreeUnread(user);
    }
  }

  /** Whatever is received, only folders of the header's class appear. */
  lemma {:induction false} OnlyPathsAppear(image: Image, messages: seq<string>)
    requires forall u :: u in image.folders ==> IsPath(u)
    ensures forall u :: u in ReceiveFiles(image, messages).0.folders ==> IsPath(u)
    decreases |messages|
  {
    hide Search, IsPath, SplitPath, NameOf;
    if messages != [] && messages[0] != SYNC_DONE && messages[0] != SYNC_ERROR &&
       ReceiveFile(image, messages[0]).Some?
    {
      OnlyPathsRead(messages[0]);
      var path := Search(TRANSFER, messages[0]).value.groups[0];
      if SplitPath(path).Some? {
        DirIsPath(path);
      }
      OnlyPathsAppear(ReceiveFile(image, messages[0]).value, messages[1..]);
    }
  }

  /** Without the closing message, as when the connection breaks, and after an error
      message, no synchronisation is complete. */
  lemma {:induction false} NoEndNoSuccess(image: Image, messages: seq<string>)
    ensures SYNC_DONE !in messages ==> !ReceiveFiles(image, messages).1
    ensures forall i :: 0 <= i < |messages| && messages[i] == SYNC_ERROR && SYNC_DONE !in messages[..i] ==>
              !ReceiveFiles(image, messages).1
    decreases |messages|
  {
    hide ReceiveFile;
    if messages != [] && messages[0] != SYNC_DONE && messages[0] != SYNC_ERROR &&
       ReceiveFile(image, messages[0]).Some?
    {
      NoEndNoSuccess(ReceiveFile(image, messages[0]).value, messages[1..]);
      forall i | 0 <= i < |messages| && messages[i] == SYNC_ERROR && SYNC_DONE !in messages[..i]
        ensures messages[1..][i - 1] == SYNC_ERROR && SYNC_DONE !in messages[1..][..i - 1]
      {
        assert messages[1..][..i - 1] == messages[..i][1..];
      }
    } else if messages != [] && messages[0] == SYNC_DONE {
      assert forall i :: 0 < i <= |messages| ==> messages[..i][0] == SYNC_DONE;
    }
  }

  lemma {:induction false} DirIsPrefix(path: string)
    requires SplitPath(path).Some?
    ensures SplitPath(path).value.0 <= path
  {
    var front, c := path[..|path| - 1], path[|path| - 1];
    if c != '/' {
      DirIsPrefix(front);
    }
  }

  lemma DirIsPath(path: string)
    requires IsPath(path) && SplitPath(path).Some?
    ensures SplitPath(path).value.0 != "" ==> IsPath(SplitPath(path).value.0)
  {
    DirIsPrefix(path);
  }

  // ---- What the primary sends (backend/cache.h:711-754, 932-965) ----

  /** An entry of the directory listing: the log, or a user's folder with its files in
      some order. */
  datatype Dirent = LogFile | UserFolder(user: string, names: seq<FileName>)

  ghost predicate DirentOk(files: Image, e: Dirent) {
    match e
    case LogFile => files.log.Some?
    case UserFolder(user, names) =>
      user in files.folders && forall name :: name in names <==> name in files.folders[user]
  }

  predicate Same(a: Dirent, b: Dirent) {
    (a.LogFile? && b.LogFile?) || (a.UserFolder? && b.UserFolder? && a.user == b.user)
  }

  predicate Distinct(listing: seq<Dirent>) {
    forall i, j :: 0 <= i < j < |listing| ==> !Same(listing[i], listing[j])
  }

  predicate FolderListed(listing: seq<Dirent>, user: string) {
    exists i :: 0 <= i < |listing| && listing[i].UserFolder? && listing[i].user == user
  }

  /** The log and every folder are listed once. */
  ghost predicate Lists(files: Image, listing: seq<Dirent>) {
    && Distinct(listing) && (forall i :: 0 <= i < |listing| ==> DirentOk(files, listing[i]))
    && (files.log.Some? ==> LogFile in listing)
    && forall u :: u in files.folders ==> FolderListed(listing, u)
  }

  function FileTexts(user: string, f: Folder, names: seq<FileName>): seq<string>
    requires forall name :: name in names ==> name in f
  {
    if names == [] then []
    else [FileText(PathTo(user, names[0]), f[names[0]])] + FileTexts(user, f, names[1..])
  }

  function DirentTexts(files: Image, e: Dirent): seq<string>
    requires DirentOk(files, e)
  {
    match e
    case LogFile => [FileText("logging", files.log.value)]
    case UserFolder(user, names) => [DirText(user)] + FileTexts(user, files.folders[user], names)
  }

  function Texts(files: Image, listing: seq<Dirent>): seq<string>
    requires forall i :: 0 <= i < |listing| ==> DirentOk(files, listing[i])
  {
    if listing == [] then [] else DirentTexts(files, listing[0]) + Texts(files, listing[1..])
  }

  /** The messages of one full synchronisation: the files in the order of some listing,
      and the end. */
  ghost predicate SentFrom(files: Image, messages: seq<string>) {
    exists listing :: Lists(files, listing) && messages == Texts(files, listing) + [SYNC_DONE]
  }

  // ---- What the secondary receives of it ----

  /** The receiver gets no further than a folder whose name the header cannot carry. */
  predicate Blocked(e: Dirent) {
    e.UserFolder? && !IsPath(e.user)
  }

  function Stop(listing: seq<Dirent>): (n: nat)
    ensures n <= |listing|
  {
    if listing == [] || Blocked(listing[0]) then 0 else 1 + Stop(listing[1..])
  }

  function Add(files: Image, image: Image, e: Dirent): Image
    requires DirentOk(files, e)
  {
    match e
    case LogFile => image.(log := files.log)
    case UserFolder(user, _) => image.(folders := image.folders[user := files.folders[user]])
  }

  function AddAll(files: Image, image: Image, listing: seq<Dirent>): Image
    requires forall i :: 0 <= i < |listing| ==> DirentOk(files, listing[i])
    decreases |listing|
  {
    if listing == [] then image else AddAll(files, Add(files, image, listing[0]), listing[1..])
  }

  /** Complete folders of `files`, and its log or none. */
  ghost predicate PartOf(image: Image, files: Image) {
    && (image.log == None || image.log == files.log)
    && forall u :: u in image.folders ==> u in files.folders && image.folders[u] == files.folders[u]
  }

  function CopyFiles(copied: Folder, f: Folder, names: seq<FileName>): Folder
    requires forall name :: name in names ==> name in f
    decreases |names|
  {
    if names == [] then copied else CopyFiles(copied[names[0] := f[names[0]]], f, names[1..])
  }

  lemma {:induction false} CopyAll(copied: Folder, f: Folder, names: seq<FileName>)
    requires forall name :: name in names ==> name in f
    requires forall name :: name in copied ==> name in f && copied[name] == f[name]
    ensures var all := CopyFiles(copied, f, names);
            && (forall name :: name in all <==> name in copied || name in names)
            && forall name :: name in all ==> name in f && all[name] == f[name]
    decreases |names|
  {
    if names != [] {
      CopyAll(copied[names[0] := f[names[0]]], f, names[1..]);
      assert forall name :: name in names <==> name == names[0] || name in names[1..];
    }
  }

  lemma NotAnEnd(path: string, kind: string, size: nat, content: string)
    ensures TransferHeader(path, kind, size) + content != SYNC_DONE
    ensures TransferHeader(path, kind, size) + content != SYNC_ERROR
  {
    hide AfterPath;
    assert TransferHeader(path, kind, size)[0] == 'K';
  }

  lemma {:induction false} FilesReceived(image: Image, user: string, f: Folder, names: seq<FileName>,
                                         rest: seq<string>)
    requires IsPath(user) && user in image.folders
    requires forall name :: name in names ==> name in f
    ensures ReceiveFiles(image, FileTexts(user, f, names) + rest) ==
            ReceiveFiles(image.(folders := image.folders[user := CopyFiles(image.folders[user], f, names)]), rest)
    decreases |names|
  {
    hide ReceiveFile, TransferHeader, NameOf, NameText, SplitPath, PathTo, IsPath;
    if names == [] {
      assert FileTexts(user, f, names) + rest == rest;
      assert image.folders[user := image.folders[user]] == image.folders;
    } else {
      var path, content := PathTo(user, names[0]), f[names[0]];
      var copied := image.folders[user][names[0] := content];
      var next := image.(folders := image.folders[user := copied]);
      var more := FileTexts(user, f, names[1..]) + rest;
      assert FileTexts(user, f, names) + rest == [FileText(path, content)] + more;
      NotAnEnd(path, "FILE", |content|, content);
      PathToIsPath(user, names[0]);
      NameRoundTrip(names[0]);
      FileRead(image, path, content);
      IsPathNonEmpty(user);
      assert ReceiveFile(image, FileText(path, content)) == Some(next);
      FilesReceived(next, user, f, names[1..], rest);
      assert next.folders[user := CopyFiles(copied, f, names[1..])] ==
             image.folders[user := CopyFiles(copied, f, names[1..])];
    }
  }

  lemma IsPathNonEmpty(s: string)
    requires IsPath(s)
    ensures s != ""
  {
  }

  lemma FolderReceived(image: Image, user: string, f: Folder, names: seq<FileName>, rest: seq<string>)
    requires IsPath(user) && user !in image.folders && forall name :: name in names <==> name in f
    ensures ReceiveFiles(image, [DirText(user)] + FileTexts(user, f, names) + rest) ==
            ReceiveFiles(image.(folders := image.folders[user := f]), rest)
  {
    hide ReceiveFile, TransferHeader, IsPath, FileTexts;
    var next := image.(folders := image.folders[user := map[]]);
    NotAnEnd(user, "DIR", 0, "");
    assert DirText(user) + "" == DirText(user);
    FolderRead(image, user);
    assert [DirText(user)] + FileTexts(user, f, names) + rest == [DirText(user)] + (FileTexts(user, f, names) + rest);
    FilesReceived(next, user, f, names, rest);
    CopyAll(map[], f, names);
    assert CopyFiles(map[], f, names) == f;
    assert next.folders[user := f] == image.folders[user := f];
  }

  lemma LogReceived(image: Image, log: string, rest: seq<string>)
    ensures ReceiveFiles(image, [FileText("logging", log)] + rest) == ReceiveFiles(image.(log := Some(log)), rest)
  {
    assert AllIn(PathChars, "logging");
    hide ReceiveFile, TransferHeader, AllIn;
    NotAnEnd("logging", "FILE", |log|, log);
    FileRead(image, "logging", log);
  }

  lemma DirentReceived(files: Image, image: Image, e: Dirent, rest: seq<string>)
    requires DirentOk(files, e) && !Blocked(e) && (e.UserFolder? ==> e.user !in image.folders)
    ensures ReceiveFiles(image, DirentTexts(files, e) + rest) == ReceiveFiles(Add(files, image, e), rest)
  {
    hide ReceiveFiles, IsPath, FileTexts;
    match e
    case LogFile => LogReceived(image, files.log.value, rest);
    case UserFolder(user, names) => FolderReceived(image, user, files.folders[user], names, rest);
  }

  /** Whatever the order of the listing: everything before the first folder that the header
      cannot carry is received, and then the synchronisation ends. */
  lemma {:induction false} ListingReceived(files: Image, image: Image, listing: seq<Dirent>)
    requires forall i :: 0 <= i < |listing| ==> DirentOk(files, listing[i])
    requires Distinct(listing) && forall u :: u in image.folders ==> !FolderListed(listing, u)
    requires forall i :: 0 <= i < |listing| && Blocked(listing[i]) ==> NoSpaces(listing[i].user)
    ensures ReceiveFiles(image, Texts(files, listing) + [SYNC_DONE]) ==
            (AddAll(files, image, listing[..Stop(listing)]), Stop(listing) == |listing|)
    decreases |listing|
  {
    hide ReceiveFile, TransferHeader, DirentTexts, DirentOk, NoSpaces, IsPath;
    if listing == [] {
      assert Texts(files, listing) + [SYNC_DONE] == [SYNC_DONE];
    } else {
      var e, more := listing[0], Texts(files, listing[1..]) + [SYNC_DONE];
      assert Texts(files, listing) + [SYNC_DONE] == DirentTexts(files, e) + more;
      assert e.UserFolder? ==> FolderListed(listing, e.user);
      if Blocked(e) {
        BlockedEnds(files, image, e, more);
      } else {
        DirentReceived(files, image, e, more);
        RestListed(files, image, listing);
        ListingReceived(files, Add(files, image, e), listing[1..]);
        assert listing[..Stop(listing)][1..] == listing[1..][..Stop(listing[1..])];
      }
    }
  }

  lemma BlockedEnds(files: Image, image: Image, e: Dirent, more: seq<string>)
    requires DirentOk(files, e) && Blocked(e) && NoSpaces(e.user)
    ensures ReceiveFiles(image, DirentTexts(files, e) + more) == (image, false)
  {
    BlankFreeUnread(e.user);
    NotAnEnd(e.user, "DIR", 0, "");
    hide TransferHeader, Search, IsPath, FileTexts;
    assert DirText(e.user) + "" == DirText(e.user);
    assert (DirentTexts(files, e) + more)[0] == DirText(e.user);
  }

  lemma RestListed(files: Image, image: Image, listing: seq<Dirent>)
    requires listing != [] && DirentOk(files, listing[0]) && Distinct(listing)
    requires forall u :: u in image.folders ==> !FolderListed(listing, u)
    ensures Distinct(listing[1..])
    ensures forall u :: u in Add(files, image, listing[0]).folders ==> !FolderListed(listing[1..], u)
  {
    var rest := listing[1..];
    assert forall i :: 0 <= i < |rest| ==> rest[i] == listing[i + 1] && !Same(listing[0], listing[i + 1]);
    assert forall u :: FolderListed(rest, u) ==> FolderListed(listing, u);
  }

  lemma {:induction false} AddAllIs(files: Image, image: Image, listing: seq<Dirent>)
    requires forall i :: 0 <= i < |listing| ==> DirentOk(files, listing[i])
    requires PartOf(image, files)
    ensures var all := AddAll(files, image, listing);
            && PartOf(all, files)
            && (image.log == files.log || LogFile in listing ==> all.log == files.log)
            && forall u :: u in image.folders || FolderListed(listing, u) ==> u in all.folders
    decreases |listing|
  {
    if listing != [] {
      var next := Add(files, image, listing[0]);
      assert DirentOk(files, listing[0]);
      AddAllIs(files, next, listing[1..]);
      forall u | FolderListed(listing, u) ensures u in next.folders || FolderListed(listing[1..], u) {
        var i :| 0 <= i < |listing| && listing[i].UserFolder? && listing[i].user == u;
        assert i > 0 ==> listing[1..][i - 1] == listing[i];
      }
    }
  }

  lemma {:induction false} StopIs(listing: seq<Dirent>)
    ensures Stop(listing) == |listing| <==> forall i :: 0 <= i < |listing| ==> !Blocked(listing[i])
    ensures Stop(listing) < |listing| ==> Blocked(listing[Stop(listing)])
    decreases |listing|
  {
    if listing != [] && !Blocked(listing[0]) {
      StopIs(listing[1..]);
      assert forall i :: 0 < i < |listing| ==> listing[i] == listing[1..][i - 1];
    }
  }

  /** The names that the transfer can carry. */
  predicate Carried(folders: map<string, Folder>) {
    forall u :: u in folders ==> IsPath(u)
  }

  predicate BlankFree(users: set<string>) {
    forall u :: u in users ==> NoSpaces(u)
  }

  lemma ListedBlocked(files: Image, listing: seq<Dirent>)
    requires Lists(files, listing)
    ensures Carried(files.folders) <==> forall i :: 0 <= i < |listing| ==> !Blocked(listing[i])
  {
    hide IsPath;
    assert forall i :: 0 <= i < |listing| ==> DirentOk(files, listing[i]);
    forall u | u in files.folders && forall i :: 0 <= i < |listing| ==> !Blocked(listing[i]) ensures IsPath(u) {
      assert FolderListed(listing, u);
      var i :| 0 <= i < |listing| && listing[i].UserFolder? && listing[i].user == u;
      assert !Blocked(listing[i]);
    }
  }

  /** Main result on the transfer: for any files, names and order of the listing, the
      receiver ends with exactly the sender's files if and only if the header's class has
      the name of every folder. With a name outside it that has no blank the receiver stops
      with an error, and then it holds some complete folders and perhaps the log. */
  lemma TransferIff(files: Image, messages: seq<string>)
    requires SentFrom(files, messages)
    ensures ReceiveFiles(NO_FILES, messages) == (files, true) <==> Carried(files.folders)
    ensures BlankFree(files.folders.Keys) ==>
              var (image, complete) := ReceiveFiles(NO_FILES, messages);
              PartOf(image, files) && (complete <==> Carried(files.folders))
  {
    hide ReceiveFiles, Texts, IsPath, NoSpaces, AddAll, Distinct, DirentOk, PartOf;
    var listing :| Lists(files, listing) && messages == Texts(files, listing) + [SYNC_DONE];
    ListedBlocked(files, listing);
    StopIs(listing);
    NothingIsPart(files);
    OnlyPathsAppear(NO_FILES, messages);
    if BlankFree(files.folders.Keys) || Carried(files.folders) {
      UsersListed(files, listing);
      ListingReceived(files, NO_FILES, listing);
      AddAllIs(files, NO_FILES, listing[..Stop(listing)]);
      if Carried(files.folders) {
        assert listing[..Stop(listing)] == listing;
        AllAdded(files, listing);
      }
    }
  }

  lemma NothingIsPart(files: Image)
    ensures PartOf(NO_FILES, files)
  {
  }

  lemma UsersListed(files: Image, listing: seq<Dirent>)
    requires Lists(files, listing) && (BlankFree(files.folders.Keys) || Carried(files.folders))
    ensures forall i :: 0 <= i < |listing| && Blocked(listing[i]) ==> NoSpaces(listing[i].user)
  {
    hide IsPath, NoSpaces;
    assert forall i :: 0 <= i < |listing| ==> DirentOk(files, listing[i]);
  }

  lemma AllAdded(files: Image, listing: seq<Dirent>)
    requires Lists(files, listing)
    ensures AddAll(files, NO_FILES, listing) == files
  {
    hide Distinct, DirentOk, FolderListed, AddAll;
    AddAllIs(files, NO_FILES, listing);
    var all := AddAll(files, NO_FILES, listing);
    assert files.log == None ==> all.log == files.log;
    assert all.folders.Keys == files.folders.Keys;
    assert all.folders == files.folders;
  }

  // ---- The sender ----

  lemma {:induction false} FileTextsSnoc(user: string, f: Folder, names: seq<FileName>, name: FileName)
    requires name in f && forall n :: n in names ==> n in f
    ensures FileTexts(user, f, names + [name]) ==
            FileTexts(user, f, names) + [FileText(PathTo(user, name), f[name])]
  {
    hide FileText, PathTo;
    if names == [] {
      assert [] + [name] == [name] && [name][1..] == [];
    } else {
      assert (names + [name])[1..] == names[1..] + [name];
      FileTextsSnoc(user, f, names[1..], name);
    }
  }

  lemma {:induction false} TextsSnoc(files: Image, listing: seq<Dirent>, e: Dirent)
    requires DirentOk(files, e) && forall i :: 0 <= i < |listing| ==> DirentOk(files, listing[i])
    ensures Texts(files, listing + [e]) == Texts(files, listing) + DirentTexts(files, e)
  {
    hide DirentTexts, DirentOk;
    if listing == [] {
      assert [] + [e] == [e] && [e][1..] == [];
    } else {
      assert (listing + [e])[1..] == listing[1..] + [e];
      TextsSnoc(files, listing[1..], e);
    }
  }

  ghost predicate FolderSent(user: string, f: Folder, names: seq<FileName>, messages: seq<string>) {
    && (forall name :: name in names <==> name in f)
    && messages == [DirText(user)] + FileTexts(user, f, names)
  }

  /** The messages of one folder, its files in any order. */
  method SendFolder(user: string, f: Folder) returns (messages: seq<string>)
    ensures exists names :: FolderSent(user, f, names, messages)
  {
    hide DirText, FileText, PathTo;
    messages := [DirText(user)];
    ghost var names: seq<FileName> := [];
    var left := f.Keys;
    while left != {}
      invariant left <= f.Keys && forall name :: name in names <==> name in f && name !in left
      invariant messages == [DirText(user)] + FileTexts(user, f, names)
      decreases left
    {
      var name :| name in left;
      FileTextsSnoc(user, f, names, name);
      messages := messages + [FileText(PathTo(user, name), f[name])];
      names, left := names + [name], left - {name};
    }
    assert FolderSent(user, f, names, messages);
  }

  /** What `SendAll` has listed so far. */
  ghost predicate Listed(files: Image, listing: seq<Dirent>, users: set<string>, logSent: bool) {
    && Distinct(listing) && (forall i :: 0 <= i < |listing| ==> DirentOk(files, listing[i]))
    && (files.log.Some? && logSent <==> LogFile in listing)
    && forall u :: u in files.folders && u !in users <==> FolderListed(listing, u)
  }

  lemma DirentExists(files: Image, e: Dirent)
    requires DirentOk(files, e)
    ensures if e.LogFile? then files.log.Some? else e.user in files.folders
  {
  }

  lemma ListOne(files: Image, listing: seq<Dirent>, users: set<string>, logSent: bool, e: Dirent)
    requires Listed(files, listing, users, logSent) && DirentOk(files, e)
    requires if e.LogFile? then !logSent else e.user in users
    ensures Listed(files, listing + [e], if e.LogFile? then users else users - {e.user}, logSent || e.LogFile?)
  {
    hide DirentOk;
    var more := listing + [e];
    DirentExists(files, e);
    forall i | 0 <= i < |listing| ensures !Same(listing[i], e) {
      assert e.UserFolder? ==> !FolderListed(listing, e.user);
      assert e.LogFile? ==> LogFile !in listing;
    }
    forall u ensures FolderListed(more, u) <==> FolderListed(listing, u) || (e.UserFolder? && e.user == u) {
      if FolderListed(listing, u) {
        var i :| 0 <= i < |listing| && listing[i].UserFolder? && listing[i].user == u;
        assert more[i] == listing[i];
      }
      assert more[|listing|] == e;
    }
  }

  /** `PrimarySendAllContent`: the log and the folders in any order, then the end. */
  method SendAll(files: Image) returns (messages: seq<string>)
    ensures SentFrom(files, messages)
  {
    hide Listed, DirText, FileText, FileTexts;
    messages := [];
    ghost var listing: seq<Dirent> := [];
    var logSent := files.log == None;
    var users := files.folders.Keys;
    NothingListed(files);
    while users != {} || !logSent
      invariant users <= files.folders.Keys && (logSent || files.log.Some?)
      invariant Listed(files, listing, users, logSent) && forall i :: 0 <= i < |listing| ==> DirentOk(files, listing[i])
      invariant messages == Texts(files, listing)
      decreases users, !logSent
    {
      var logNext: bool := *;
      if !logSent && (users == {} || logNext) {
        ListOne(files, listing, users, logSent, LogFile);
        TextsSnoc(files, listing, LogFile);
        messages := messages + [FileText("logging", files.log.value)];
        listing, logSent := listing + [LogFile], true;
      } else {
        var user :| user in users;
        var texts := SendFolder(user, files.folders[user]);
        ghost var names :| FolderSent(user, files.folders[user], names, texts);
        ListOne(files, listing, users, logSent, UserFolder(user, names));
        TextsSnoc(files, listing, UserFolder(user, names));
        messages, users := messages + texts, users - {user};
        listing := listing + [UserFolder(user, names)];
      }
    }
    AllListed(files, listing, users, logSent);
    messages := messages + [SYNC_DONE];
  }

  lemma NothingListed(files: Image)
    ensures Listed(files, [], files.folders.Keys, files.log == None)
  {
  }

  lemma AllListed(files: Image, listing: seq<Dirent>, users: set<string>, logSent: bool)
    requires Listed(files, listing, users, logSent) && users == {} && logSent
    ensures Lists(files, listing)
  {
  }
}
