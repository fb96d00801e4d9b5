/** The file service (frontend/storage.h:81-977): a handler that loads a user's
    tree from the key-value store, serves one request and stores the tree again. */
module StorageService {
  import opened Text
  import opened Regex
  import opened StorageTree
  import opened StorageSubtree
  import opened StoragePath
  import opened StorageBreadth
  import opened StorageMetadata
  import opened StorageReload
  import opened StorageDelete
  import opened StorageWorld
  import opened StorageSteps

  /** A user's cells; a backend node serves these commands (backend/kvstore.cpp:72-123). */
  class Kv {
    var cells: Cells

    constructor (cells: Cells)
      ensures this.cells == cells
    {
      this.cells := cells;
    }

    /** Reading an empty cell fails or finishes, depending on what the node has cached
        (`KvModel.SecondGetsFinishes`). */
    method Gets(key: string) returns (ok: bool, value: string)
      ensures value == View(cells, key) && (value != "" ==> ok)
    {
      value := if key in cells then cells[key] else "";
      if value == "" {
        ok := *;
      } else {
        ok := true;
      }
    }

    method Puts(key: string, value: string)
      modifies this
      ensures cells == old(cells)[key := value]
    {
      cells := cells[key := value];
    }

    method Cput(key: string, value1: string, value2: string) returns (ok: bool)
      modifies this
      ensures ok <==> View(old(cells), key) == value1
      ensures cells == if ok then old(cells)[key := value2] else old(cells)
    {
      ok := (if key in cells then cells[key] else "") == value1;
      if ok {
        cells := cells[key := value2];
      }
    }

    method Dele(key: string)
      modifies this
      ensures cells == old(cells) - {key}
    {
      cells := cells - {key};
    }
  }

  datatype ReadResult = Read | Unfound | Exception

  class StorageHandler {
    const kv: Kv
    var directories: Table
    var root: nat
    var latestId: int
    var metadataStr: string

    constructor (kv: Kv)
      ensures this.kv == kv && directories == map[] && latestId == -1 && metadataStr == ""
    {
      this.kv := kv;
      directories := map[];
      root := 0;
      latestId := -1;
      metadataStr := "";
    }

    function TreeOf(): Tree
      reads this
      requires latestId >= 0
    {
      Tree(directories, root, latestId)
    }

    // ---- Loading (frontend/storage.h:195-205, 694-772) ----

    /** A known ID keeps its node, whatever name and kind are given; no other ID changes. */
    method FindOrCreateDirMapping(id: nat, name: string, isFile: bool)
      modifies this`directories
      ensures directories.Keys == old(directories).Keys + {id}
      ensures forall x :: x in old(directories) ==> directories[x] == old(directories)[x]
      ensures id !in old(directories) ==> directories[id] == Dirent(name, isFile, None, false, map[])
    {
      if id !in directories {
        directories := directories[id := Dirent(name, isFile, None, false, map[])];
      }
    }

    method ParseDirEntry(parent: nat, line: string) returns (threw: bool)
      requires parent in directories
      modifies this`directories
      ensures match ParseEntry(old(directories), parent, line)
              case None => threw
              case Some(nodes) => !threw && directories == nodes && parent in directories
    {
      threw := false;
      var found := FullMatch(CONTENT, line);
      if found.Some? {
        var g := found.value;
        if |g| != 3 || !FitsInt(g[1]) {
          return true;
        }
        var id, name := ParseDec(g[1]), g[0];
        FindOrCreateDirMapping(id, name, g[2] == "F");
        assert directories == FindOrCreate(old(directories), id, name, g[2] == "F");
        directories := directories[parent := directories[parent].(entries := directories[parent].entries[name := id])];
        directories := directories[id := directories[id].(parent := Some(parent))];
      }
    }

    method ParseDirectory(stream: string, isRoot: bool, path: string, id: nat, items: nat)
      returns (rest: string, threw: bool)
      modifies this`directories
      ensures var lines := SplitLines(stream);
              match ParseEntries(OpenFolder(old(directories), isRoot, path, id), id, lines, items)
              case None => threw
              case Some(nodes) =>
                && !threw && directories == nodes && |rest| <= |stream|
                && SplitLines(rest) == lines[if items < |lines| then items else |lines|..]
    {
      hide ParseEntry, SplitLines, Line, AfterLine, AfterLastSlash;
      rest, threw := stream, false;
      FindOrCreateDirMapping(id, AfterLastSlash(path), false);
      assert directories == FindOrCreate(old(directories), id, AfterLastSlash(path), false);
      if isRoot {
        directories := directories[id := directories[id].(isRoot := true)];
      }
      assert directories == OpenFolder(old(directories), isRoot, path, id);
      hide OpenFolder, FindOrCreate;
      ghost var lines := SplitLines(stream);
      ghost var result := ParseEntries(directories, id, lines, items);
      var i := 0;
      while i < items
        invariant 0 <= i <= items && i <= |lines| && |rest| <= |stream| && !threw
        invariant SplitLines(rest) == lines[i..]
        invariant id in directories && ParseEntries(directories, id, SplitLines(rest), items - i) == result
      {
        if rest == "" {
          NoLines();
          break;
        }
        NextLine(rest);
        assert lines[i..][1..] == lines[i + 1..];
        threw := ParseDirEntry(id, Line(rest));
        if threw {
          return;
        }
        rest := AfterLine(rest);
        i := i + 1;
      }
    }

    method ParseMetadataFile() returns (r: ReadResult)
      requires directories == map[]
      modifies this`directories, this`root, this`latestId
      ensures match Load(metadataStr)
              case None => r != Read
              case Some(st) =>
                && r == Read && directories == st.nodes
                && (st.root.Some? ==> root == st.root.value) && (st.latest.Some? ==> latestId == st.latest.value)
    {
      hide TitleOf, ParseEntries, OpenFolder;
      if metadataStr == "" {
        return Unfound;
      }
      var rest := metadataStr;
      ghost var st := NOTHING;
      while rest != ""
        modifies this`directories, this`root, this`latestId
        invariant ParseLines(SplitLines(rest), st) == Load(metadataStr)
        invariant directories == st.nodes && metadataStr == old(metadataStr)
        invariant (st.root.Some? ==> root == st.root.value) && (st.latest.Some? ==> latestId == st.latest.value)
        decreases |rest|
      {
        var line := Line(rest);
        NextLine(rest);
        rest := AfterLine(rest);
        match TitleOf(line) {
          case Other =>
          case Throws =>
            return Exception;
          case Latest(id) =>
            latestId := id;
            st := st.(latest := Some(id));
          case Folder(isRoot, path, id, items) =>
            var threw;
            rest, threw := ParseDirectory(rest, isRoot, path, id, items);
            if threw {
              return Exception;
            }
            if isRoot {
              root := id;
            }
            st := Loaded(directories, if isRoot then Some(id) else st.root, st.latest);
        }
      }
      return Read;
    }

    /** A fresh handler reads what the cells hold. */
    method ReadMetadata(ghost w: World) returns (r: ReadResult)
      requires directories == map[] && Holds(kv.cells, w)
      modifies this
      ensures r == Read && Ready(w)
    {
      hide WellFormed, Metadata, Lists, Load, HoldsFiles;
      ghost var order :| Lists(w.tree, order) && View(kv.cells, METADATA) == Metadata(w.tree, w.depth, order);
      MetadataRoundTrip(w.tree, w.depth, order);
      LoadOfNothing();
      var ok;
      ok, metadataStr := kv.Gets(METADATA);
      if !ok {
        return Unfound;
      }
      r := ParseMetadataFile();
    }

    /** The handler and the cells hold the same tree and files. */
    ghost predicate Ready(w: World)
      reads this, kv
    {
      && latestId >= 0 && TreeOf() == w.tree && Holds(kv.cells, w)
      && metadataStr == View(kv.cells, METADATA)
    }

    // ---- Storing (frontend/storage.h:131-149, 774-808) ----

    /** The entry lines of one directory and the directories among the entries. */
    method PrintEntries(d: nat, names: seq<string>) returns (text: string, dirs: seq<nat>)
      requires latestId >= 0 && d in directories
      requires forall n :: n in names ==> n in directories[d].entries && directories[d].entries[n] in directories
      ensures text == JoinLines(EntryLines(TreeOf(), d, names)) && dirs == ChildDirs(TreeOf(), d, names)
    {
      hide EntryLine;
      ghost var t := TreeOf();
      text, dirs := "", [];
      assert names[0..] == names;
      var i := 0;
      while i < |names|
        invariant 0 <= i <= |names|
        invariant text + JoinLines(EntryLines(t, d, names[i..])) == JoinLines(EntryLines(t, d, names))
        invariant dirs + ChildDirs(t, d, names[i..]) == ChildDirs(t, d, names)
      {
        var name := names[i];
        var y := directories[d].entries[name];
        assert names[i..][0] == name && names[i..][1..] == names[i + 1..];
        if !directories[y].isFile {
          dirs := dirs + [y];
        }
        text := text + (EntryLine(name, y, directories[y].isFile) + "\n");
        i := i + 1;
      }
    }

    /** Prints the tree level by level, for any iteration order of the entries. */
    method GetMetadataStr(order: Order, ghost depth: map<nat, nat>) returns (text: string)
      requires latestId >= 0 && WellFormed(TreeOf(), depth) && Lists(TreeOf(), order)
      ensures text == Metadata(TreeOf(), depth, order)
    {
      ghost var t := TreeOf();
      text := LatestLine(latestId) + "\n";
      PrintStart(t, depth, order);
      var queue := [root];
      ghost var all, k := [root], 0;
      hide WellFormed, Lists, Frontier, Metadata, FolderLine, PathOf, LatestLine, JoinLines, EntryLines, ChildDirs,
        IsListing, Printing;
      while queue != []
        invariant k <= |all| && queue == all[k..] && Printing(t, depth, order, all, k, text)
        decreases |t.nodes| - k
      {
        var cur := queue[0];
        PrintStep(t, depth, order, all, k, text);
        ListedAreNodes(t, depth, order, cur);
        var entries, children := PrintEntries(cur, order[cur]);
        NextQueue(all, k, children);
        var folder := FolderLine(cur == root, PathOf(TreeOf(), depth, cur), cur, |directories[cur].entries|);
        text := text + (folder + "\n" + entries);
        queue := queue[1..] + children;
        all, k := all + children, k + 1;
      }
      PrintEnd(t, depth, order, all, k, text);
    }

    method WriteMetadataToKv(order: Order, ghost depth: map<nat, nat>) returns (ok: bool)
      requires latestId >= 0 && WellFormed(TreeOf(), depth) && Lists(TreeOf(), order)
      modifies kv
      ensures ok <==> View(old(kv.cells), METADATA) == metadataStr
      ensures kv.cells == if ok then old(kv.cells)[METADATA := Metadata(TreeOf(), depth, order)] else old(kv.cells)
    {
      var text := GetMetadataStr(order, depth);
      ok := kv.Cput(METADATA, metadataStr, text);
    }

    /** Any iteration order of the entry maps. */
    method EntryOrder() returns (order: Order)
      requires latestId >= 0
      ensures Lists(TreeOf(), order)
    {
      order := map[];
      var rest := directories.Keys;
      while rest != {}
        invariant rest <= directories.Keys
        invariant forall d :: d in directories && d !in rest ==>
                    d in order && IsListing(directories[d].entries, order[d])
        decreases |rest|
      {
        var d :| d in rest;
        var names := Listing(directories[d].entries);
        order := order[d := names];
        rest := rest - {d};
      }
    }

    /** Nobody else writes the cell between two of its requests, so the compare-and-swap
        succeeds. */
    method StoreTree(ghost contents: map<nat, string>, ghost depth: map<nat, nat>) returns (ok: bool)
      requires latestId >= 0 && WellFormed(TreeOf(), depth) && HoldsFiles(kv.cells, contents)
      requires metadataStr == View(kv.cells, METADATA)
      modifies kv, this`metadataStr
      ensures ok && HoldsFiles(kv.cells, contents) && HoldsTree(kv.cells, TreeOf(), depth)
      ensures metadataStr == View(kv.cells, METADATA)
    {
      hide WellFormed, HoldsFiles, HoldsTree, Metadata, Lists;
      var order := EntryOrder();
      TreeStored(kv.cells, contents, order, TreeOf(), depth);
      ok := WriteMetadataToKv(order, depth);
      if ok {
        metadataStr := GetMetadataStr(order, depth);
      }
    }

    // ---- Lookup (frontend/storage.h:651-692) ----

    method ValidatePathAndGetDir(fullPath: string, ghost depth: map<nat, nat>) returns (found: Found)
      requires latestId >= 0 && WellFormed(TreeOf(), depth)
      ensures found == Lookup(TreeOf(), fullPath)
    {
      if fullPath == "/" {
        return IsRoot;
      }
      ghost var t := TreeOf();
      RootName(t, depth);
      var path, parent, name := fullPath, root, "";
      var pos := SlashAt(path);
      while pos < |path|
        invariant pos == SlashAt(path) && parent in directories
        invariant Walk(t, parent, name, path) == Walk(t, root, "", fullPath)
        decreases |path|
      {
        At(t, depth, parent);
        if pos > 0 {
          name := path[..pos];
          if name !in directories[parent].entries {
            return NoParent;
          }
          parent := directories[parent].entries[name];
        }
        path := path[pos + 1..];
        pos := SlashAt(path);
      }
      if path != "" {
        name := path;
        if name !in directories[parent].entries {
          return NoEntry(parent, name);
        }
      }
      return if name in directories[parent].entries then Node(parent, name, directories[parent].entries[name])
             else Dangling(parent, name);
    }

    // ---- Requests (frontend/storage.h:265-577) ----

    /** Upload of a file and creation of a directory. */
    method HandleCreation(isFile: bool, path: string, content: string, ghost w: World) returns (ok: bool)
      requires Ready(w) && Allowed(w, if isFile then Upload(path, content) else MakeDir(path))
      modifies this, kv
      ensures ok <==> Succeeds(w, if isFile then Upload(path, content) else MakeDir(path))
      ensures Ready(Next(w, if isFile then Upload(path, content) else MakeDir(path)))
    {
      ghost var req := if isFile then Upload(path, content) else MakeDir(path);
      hide WellFormed, HoldsTree, HoldsFiles, Lookup, Metadata;
      Known(w, path);
      var found := ValidatePathAndGetDir(path, w.depth);
      if !found.NoEntry? {
        return false;
      }
      ghost var v := Next(w, req);
      NextOk(w, req);
      FreshId(w.tree, w.depth);
      var id, dir, name := latestId + 1, found.dir, found.name;
      CreateInPlace(w.tree, dir, name, isFile);
      directories := directories[id := Dirent(name, isFile, None, false, map[])];
      directories := directories[dir := directories[dir].(entries := directories[dir].entries[name := id])];
      directories := directories[id := directories[id].(parent := Some(dir))];
      latestId := id;
      assert TreeOf() == v.tree;
      ok := StoreTree(w.contents, v.depth);
      if isFile {
        FilePut(kv.cells, w.contents, id, content);
        MetadataKept(kv.cells, id, content, v.tree, v.depth);
        kv.Puts(Dec(id), content);
      }
    }

    method HandleRename(path: string, newName: string, ghost w: World) returns (ok: bool)
      requires Ready(w) && Allowed(w, RenameTo(path, newName))
      modifies this, kv
      ensures ok <==> Succeeds(w, RenameTo(path, newName))
      ensures Ready(Next(w, RenameTo(path, newName)))
    {
      hide WellFormed, HoldsTree, HoldsFiles, Lookup, Metadata;
      Known(w, path);
      var found := ValidatePathAndGetDir(path, w.depth);
      if !found.Node? {
        return false;
      }
      ghost var v := Next(w, RenameTo(path, newName));
      NextOk(w, RenameTo(path, newName));
      var dir, name, x := found.dir, found.name, found.node;
      RenameInPlace(w.tree, x, newName);
      directories := directories[x := directories[x].(name := newName)];
      directories := directories[dir := directories[dir].(entries := directories[dir].entries - {name})];
      directories := directories[dir := directories[dir].(entries := directories[dir].entries[newName := x])];
      assert TreeOf() == v.tree;
      ok := StoreTree(w.contents, v.depth);
    }

    method HandleMove(path: string, newDir: string, ghost w: World) returns (ok: bool)
      requires Ready(w) && Allowed(w, MoveTo(path, newDir))
      modifies this, kv
      ensures ok <==> Succeeds(w, MoveTo(path, newDir))
      ensures Ready(Next(w, MoveTo(path, newDir)))
    {
      hide WellFormed, HoldsTree, HoldsFiles, Lookup, Metadata, MayMove;
      Known(w, path);
      Known(w, newDir);
      var found := ValidatePathAndGetDir(path, w.depth);
      if !found.Node? {
        return false;
      }
      var target := ValidatePathAndGetDir(newDir, w.depth);
      if !target.Node? && !target.IsRoot? {
        return false;
      }
      ghost var v := Next(w, MoveTo(path, newDir));
      NextOk(w, MoveTo(path, newDir));
      var oldDir, name, x, dir := found.dir, found.name, found.node, if target.IsRoot? then root else target.node;
      NotIntoItself(w, x, dir);
      MoveInPlace(w.tree, x, dir);
      directories := directories[x := directories[x].(parent := Some(dir))];
      directories := directories[oldDir := directories[oldDir].(entries := directories[oldDir].entries - {name})];
      directories := directories[dir := directories[dir].(entries := directories[dir].entries[name := x])];
      assert TreeOf() == v.tree;
      ok := StoreTree(w.contents, v.depth);
    }

    /** The paths under which the entries of `x` are to be deleted. */
    method EntryPaths(x: nat, names: seq<string>, ghost w: World) returns (paths: seq<string>)
      requires Ready(w) && EntriesOf(w.tree, x, names)
      ensures |paths| == |names| && forall j :: 0 <= j < |names| ==> paths[j] == ChildPath(w, x, names, j)
    {
      hide WellFormed, HoldsTree, HoldsFiles, PathOf, StripUser, IsListing;
      paths := [];
      for i := 0 to |names|
        invariant |paths| == i && forall j :: 0 <= j < i ==> paths[j] == ChildPath(w, x, names, j)
      {
        EntryKnown(w, x, names, i);
        paths := paths + [StripUser(PathOf(TreeOf(), w.depth, directories[x].entries[names[i]]))];
      }
    }

    /** The end of a deletion: the file's cell, the node and its directory entry. */
    method EraseNode(dir: nat, name: string, x: nat, ghost u: World, ghost v: World) returns (ok: bool)
      requires Ready(u) && WorldOk(v) && x in u.tree.nodes && ParentOk(u.tree, x)
      requires Parent(u.tree, x) == dir != x && u.tree.nodes[x].name == name
      requires v.tree == Drop(u.tree, x) && v.depth == u.depth
      requires v.contents == if IsFile(u.tree, x) then u.contents - {x} else u.contents
      modifies this, kv
      ensures ok && Ready(v)
    {
      hide WellFormed, HoldsTree, HoldsFiles, Metadata, Lists;
      if directories[x].isFile {
        FileDeleted(kv.cells, u.contents, x);
        kv.Dele(Dec(x));
      }
      DropInPlace(u.tree, x);
      directories := directories[dir := directories[dir].(entries := directories[dir].entries - {name})];
      directories := directories - {x};
      assert TreeOf() == v.tree;
      ok := StoreTree(v.contents, v.depth);
    }

    /** Deletes a subtree entry by entry; the recursion ends because subtrees get smaller. */
    method HandleDelete(path: string, ghost w: World) returns (ok: bool)
      requires Ready(w) && Allowed(w, Delete(path))
      modifies this, kv
      ensures ok <==> Succeeds(w, Delete(path))
      ensures Ready(Next(w, Delete(path)))
      decreases DeleteSize(w, path)
    {
      hide WellFormed, Holds, Lookup, WorldOk, Without, Subtree, PartlyDeleted, ChildPath, Allowed, IsListing, Drop;
      var found := StartDelete(path, w);
      if !found.Node? {
        return false;
      }
      var x := found.node;
      var names := Listing(directories[x].entries);
      NothingGone(w, x, names);
      if !directories[x].isFile && |directories[x].entries| > 0 {
        var paths := EntryPaths(x, names, w);
        var i := 0;
        while i < |paths|
          invariant 0 <= i <= |paths| && Ready(PartlyDeleted(w, x, names, i))
        {
          HoldsOk(kv.cells, PartlyDeleted(w, x, names, i));
          DeleteChild(w, path, x, names, i);
          ok := HandleDelete(paths[i], PartlyDeleted(w, x, names, i));
          if !ok {
            return false;
          }
          i := i + 1;
        }
      } else {
        FilesHaveNoEntries(w, x, names);
      }
      DeleteSelf(w, x, names);
      NextOk(w, Delete(path));
      ok := EraseNode(found.dir, found.name, x, PartlyDeleted(w, x, names, |names|), Deleted(w, x));
    }

    method StartDelete(path: string, ghost w: World) returns (found: Found)
      requires Ready(w) && Allowed(w, Delete(path))
      ensures found == Lookup(w.tree, path) && WorldOk(w)
      ensures found.Node? ==> FoundOk(w.tree, found) && found.dir != found.node
      ensures found.Node? ==> Succeeds(w, Delete(path)) && Next(w, Delete(path)) == Deleted(w, found.node)
      ensures !found.Node? ==> !Succeeds(w, Delete(path)) && Next(w, Delete(path)) == w
    {
      hide WellFormed, HoldsTree, HoldsFiles, Lookup, Without, Subtree;
      Known(w, path);
      found := ValidatePathAndGetDir(path, w.depth);
    }

    /** The directories an entry can be moved to, in the order of the queue. */
    method HandleQueryAllMovableDir(path: string, ghost w: World)
      returns (ok: bool, paths: seq<string>, ghost dirs: seq<nat>)
      requires Ready(w) && !Lookup(w.tree, path).Dangling?
      ensures ok <==> Directory(w.tree, path).Some?
      ensures ok ==> NoRepeats(dirs) && ArePaths(w, dirs, paths)
      ensures ok ==> forall y :: y in dirs <==> y in MovableTargets(w, path)
    {
      hide WellFormed, Holds, WorldOk, Lookup, NoRepeats, PathOf, Inside, IsListing, MovableTargets, ArePaths;
      HoldsOk(kv.cells, w);
      paths, dirs := [], [];
      var found := ValidatePathAndGetDir(path, w.depth);
      if !found.Node? && !found.IsRoot? {
        return false, paths, dirs;
      }
      var x, parent := if found.IsRoot? then root else found.node, if found.IsRoot? then root else found.dir;
      TargetsOf(w, path, x, parent);
      paths, dirs := BrowseDirs(x, parent, w);
      ok := true;
    }

    method BrowseDirs(x: nat, parent: nat, ghost w: World) returns (paths: seq<string>, ghost dirs: seq<nat>)
      requires Ready(w) && x in w.tree.nodes
      requires if x == w.tree.root then parent == w.tree.root else w.tree.nodes[x].parent == Some(parent)
      ensures NoRepeats(dirs) && ArePaths(w, dirs, paths) && forall y :: y in dirs <==> Movable(w, x, y)
    {
      ghost var t := w.tree;
      hide WellFormed, Holds, Frontier, PathOf, IsListing, Listed, ChildDirs, NoRepeats, ArePaths, Movable;
      HoldsOk(kv.cells, w);
      var order := EntryOrder();
      Started(t, w.depth, Some(x));
      ListedStart(w, x, parent);
      paths, dirs := [], [];
      var queue := [root];
      ghost var all, k := [root], 0;
      while queue != []
        invariant k <= |all| && queue == all[k..] && Frontier(t, Some(x), all, k)
        invariant Listed(w, x, parent, all, k, dirs, paths)
        decreases |t.nodes| - k
      {
        var cur := queue[0];
        NextMovable(w, x, order, all, k);
        NextQueue(all, k, Pushed(t, Some(x), order, cur));
        ListedStep(w, x, parent, all, k, Pushed(t, Some(x), order, cur), dirs, paths);
        queue := queue[1..];
        assert queue + [] == queue;
        if !(!directories[x].isFile && x == cur) {
          if cur != parent {
            paths := paths + [PathOf(TreeOf(), w.depth, cur)];
            dirs := dirs + [cur];
          }
          var children := SubDirs(cur, order[cur]);
          queue := queue + children;
        }
        all, k := all + Pushed(t, Some(x), order, cur), k + 1;
      }
      ListedAll(w, x, parent, all, dirs, paths);
    }

    method SubDirs(d: nat, names: seq<string>) returns (dirs: seq<nat>)
      requires latestId >= 0 && d in directories
      requires forall n :: n in names ==> n in directories[d].entries && directories[d].entries[n] in directories
      ensures dirs == ChildDirs(TreeOf(), d, names)
    {
      ghost var t := TreeOf();
      dirs := [];
      assert names[0..] == names;
      for i := 0 to |names|
        invariant dirs + ChildDirs(t, d, names[i..]) == ChildDirs(t, d, names)
      {
        var y := directories[d].entries[names[i]];
        assert names[i..][0] == names[i] && names[i..][1..] == names[i + 1..];
        if !directories[y].isFile {
          dirs := dirs + [y];
        }
      }
    }

    /** The content of the file a path leads to; a directory has none. */
    method HandleFileDownload(path: string, ghost w: World) returns (content: Option<string>)
      requires Ready(w) && !Lookup(w.tree, path).Dangling?
      ensures match Directory(w.tree, path)
              case Some(x) => if x in w.contents then content == Some(w.contents[x]) else content in {None, Some("")}
              case None => content == None
    {
      hide WellFormed, HoldsTree, Lookup;
      var found := ValidatePathAndGetDir(path, w.depth);
      if !found.Node? && !found.IsRoot? {
        return None;
      }
      var ok, value := kv.Gets(Dec(if found.IsRoot? then root else found.node));
      content := if ok then Some(value) else None;
    }
  }

  // ---- One fresh handler a request (frontend/storage.h:810-976) ----

  method InitializeHandler(kv: Kv, ghost w: World) returns (handler: StorageHandler)
    requires Holds(kv.cells, w)
    ensures fresh(handler) && handler.kv == kv && handler.Ready(w)
  {
    handler := new StorageHandler(kv);
    var r := handler.ReadMetadata(w);
  }

  method Serve(kv: Kv, req: Request, ghost w: World) returns (ok: bool)
    requires Holds(kv.cells, w) && Allowed(w, req)
    modifies kv
    ensures ok <==> Succeeds(w, req)
    ensures Holds(kv.cells, Next(w, req))
  {
    hide Holds, WorldOk, Allowed, Succeeds, Next;
    var handler := InitializeHandler(kv, w);
    match req
    case Upload(path, content) => ok := handler.HandleCreation(true, path, content, w);
    case MakeDir(path) => ok := handler.HandleCreation(false, path, "", w);
    case RenameTo(path, newName) => ok := handler.HandleRename(path, newName, w);
    case MoveTo(path, newDir) => ok := handler.HandleMove(path, newDir, w);
    case Delete(path) => ok := handler.HandleDelete(path, w);
  }

  /** After any sequence of requests the cells hold exactly the tree and the files that the
      requests amount to; in particular the numeric keys are the IDs of its files. */
  method ServeAll(kv: Kv, reqs: seq<Request>, ghost w: World) returns (oks: seq<bool>)
    requires Holds(kv.cells, w) && AllAllowed(w, reqs)
    modifies kv
    ensures |oks| == |reqs|
    ensures WorldOk(w) && Holds(kv.cells, RunAll(w, reqs))
  {
    hide Holds, WorldOk, Allowed, Next;
    oks := [];
    ghost var v := w;
    assert reqs[0..] == reqs;
    HoldsOk(kv.cells, w);
    for i := 0 to |reqs|
      invariant |oks| == i && Holds(kv.cells, v) && WorldOk(v) && AllAllowed(v, reqs[i..])
      invariant RunAll(v, reqs[i..]) == RunAll(w, reqs)
    {
      assert reqs[i..][0] == reqs[i] && reqs[i..][1..] == reqs[i + 1..];
      var ok := Serve(kv, reqs[i], v);
      v := Next(v, reqs[i]);
      HoldsOk(kv.cells, v);
      oks := oks + [ok];
    }
  }

  /** A new user (frontend/reply.h:19-39). */
  method InitializeUsr(kv: Kv, usr: string)
    modifies kv
    ensures kv.cells == old(kv.cells)[METADATA := FirstText(usr)]
    ensures '/' !in usr && (forall x: nat :: View(old(kv.cells), Dec(x)) == "") ==>
              (Holds(kv.cells, FirstWorld(usr)) <==> AllIn(NameChars, usr))
  {
    if '/' !in usr && forall x: nat :: View(kv.cells, Dec(x)) == "" {
      FirstWorldStored(kv.cells, usr);
    }
    kv.Puts(METADATA, "Latest ID: 1\nRoot folder: /" + usr + " ID 1 Items 0\n");
  }
}
