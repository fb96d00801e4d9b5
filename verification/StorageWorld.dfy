/** What the file service stores for one user: a tree and the contents of its files, and
    how each request changes them (frontend/storage.h:265-577). */
module StorageWorld {
  import opened Text
  import opened Regex
  import opened StorageTree
  import opened StorageSubtree
  import opened StoragePath
  import opened StorageBreadth
  import opened StorageMetadata

  /** `depth` witnesses that the tree has no cycle. */
  datatype World = World(tree: Tree, depth: map<nat, nat>, contents: map<nat, string>)

  datatype Request =
    | Upload(path: string, content: string)
    | MakeDir(path: string)
    | RenameTo(path: string, newName: string)
    | MoveTo(path: string, newDir: string)
    | Delete(path: string)

  ghost predicate IsFile(t: Tree, x: nat) {
    x in t.nodes && t.nodes[x].isFile
  }

  ghost predicate WorldOk(w: World) {
    && WellFormed(w.tree, w.depth) && Printable(w.tree) && w.tree.latest <= INT_MAX
    && (forall x :: x in w.contents <==> IsFile(w.tree, x))
    && (forall x :: x in w.contents ==> w.contents[x] != "")
  }

  // ---- The cells of the key-value store ----

  type Cells = map<string, string>

  const METADATA: string := "storage_metadata"

  /** A missing cell reads as empty. */
  function View(cells: Cells, key: string): string {
    if key in cells then cells[key] else ""
  }

  ghost predicate HoldsFiles(cells: Cells, contents: map<nat, string>) {
    forall x: nat :: View(cells, Dec(x)) == if x in contents then contents[x] else ""
  }

  ghost predicate HoldsTree(cells: Cells, t: Tree, depth: map<nat, nat>)
    requires WellFormed(t, depth)
  {
    exists order :: Lists(t, order) && View(cells, METADATA) == Metadata(t, depth, order)
  }

  /** The cells store exactly this tree and these files. */
  ghost predicate Holds(cells: Cells, w: World) {
    WorldOk(w) && HoldsFiles(cells, w.contents) && HoldsTree(cells, w.tree, w.depth)
  }

  lemma DecInjective(a: nat, b: nat)
    requires Dec(a) == Dec(b)
    ensures a == b
  {
    DecRoundTrip(a);
    DecRoundTrip(b);
  }

  lemma NotMetadata(x: nat)
    ensures Dec(x) != METADATA
  {
    assert METADATA[0] == 's' && !IsDigit('s');
  }

  /** The numeric keys in use are exactly the IDs of the files in the tree. */
  lemma KeysAreFileIds(cells: Cells, w: World, x: nat)
    requires Holds(cells, w)
    ensures View(cells, Dec(x)) != "" <==> IsFile(w.tree, x)
    ensures IsFile(w.tree, x) ==> x <= w.tree.latest
  {
    if IsFile(w.tree, x) {
      At(w.tree, w.depth, x);
    }
    hide WellFormed, HoldsTree;
  }

  // ---- What a request does ----

  ghost predicate Succeeds(w: World, req: Request) {
    match req
    case Upload(path, _) => Lookup(w.tree, path).NoEntry?
    case MakeDir(path) => Lookup(w.tree, path).NoEntry?
    case RenameTo(path, _) => Lookup(w.tree, path).Node?
    case MoveTo(path, newDir) => Lookup(w.tree, path).Node? && Directory(w.tree, newDir).Some?
    case Delete(path) => Lookup(w.tree, path).Node?
  }

  /** The node a path leads to, where "/" is the root. */
  function Directory(t: Tree, path: string): Option<nat> {
    match Lookup(t, path)
    case IsRoot => Some(t.root)
    case Node(_, _, x) => Some(x)
    case _ => None
  }

  ghost predicate PathAllowed(t: Tree, path: string) {
    !Lookup(t, path).IsRoot? && !Lookup(t, path).Dangling?
  }

  ghost predicate CreationAllowed(t: Tree, path: string) {
    && !Lookup(t, path).Dangling?
    && (Lookup(t, path).NoEntry? ==>
          && Lookup(t, path).dir in t.nodes && !t.nodes[Lookup(t, path).dir].isFile
          && AllIn(NameChars, Lookup(t, path).name) && t.latest < INT_MAX)
  }

  predicate NewNameAllowed(name: string) {
    NameOk(name) && AllIn(NameChars, name)
  }

  /** The requests after which the service is left in order; for those that succeed the
      condition is exact (`AllowedIsExact`). The others must not ask to change the root
      itself, and their paths must not dangle. */
  ghost predicate Allowed(w: World, req: Request)
    requires WorldOk(w)
  {
    var t := w.tree;
    match req
    case Upload(path, content) => CreationAllowed(t, path) && content != ""
    case MakeDir(path) => CreationAllowed(t, path)
    case RenameTo(path, newName) =>
      LookupFinds(t, w.depth, path);
      && PathAllowed(t, path)
      && (Succeeds(w, req) ==> NewNameAllowed(newName) && MayRename(t, Lookup(t, path).node, newName))
    case MoveTo(path, newDir) =>
      LookupFinds(t, w.depth, path);
      DirectoryIsNode(t, w.depth, newDir);
      && PathAllowed(t, path) && !Lookup(t, newDir).Dangling?
      && (Succeeds(w, req) ==> MayMove(t, w.depth, Lookup(t, path).node, Directory(t, newDir).value))
    case Delete(path) => PathAllowed(t, path)
  }

  lemma DirectoryIsNode(t: Tree, depth: map<nat, nat>, path: string)
    requires WellFormed(t, depth)
    ensures Directory(t, path).Some? ==> Directory(t, path).value in t.nodes
  {
    LookupFinds(t, depth, path);
  }

  ghost function Created(w: World, dir: nat, name: string, isFile: bool, content: string): World
    requires WorldOk(w) && dir in w.tree.nodes && dir in w.depth
  {
    var id := w.tree.latest + 1;
    World(Create(w.tree, dir, name, isFile), w.depth[id := w.depth[dir] + 1],
          if isFile then w.contents[id := content] else w.contents)
  }

  /** The state after a request; one that fails changes nothing. */
  ghost function Next(w: World, req: Request): World
    requires WorldOk(w)
  {
    if !Succeeds(w, req) then w
    else
      LookupFinds(w.tree, w.depth, req.path);
      var found := Lookup(w.tree, req.path);
      match req
      case Upload(_, content) => Created(w, found.dir, found.name, true, content)
      case MakeDir(_) => Created(w, found.dir, found.name, false, "")
      case RenameTo(_, newName) => w.(tree := Rename(w.tree, found.node, newName))
      case MoveTo(_, newDir) =>
        DirectoryIsNode(w.tree, w.depth, newDir);
        var dir := Directory(w.tree, newDir).value;
        w.(tree := Move(w.tree, found.node, dir), depth := DepthAfterMove(w.tree, w.depth, found.node, dir))
      case Delete(_) => Deleted(w, found.node)
  }

  ghost function Deleted(w: World, x: nat): World
    requires WorldOk(w)
  {
    World(Without(w.tree, w.depth, x), w.depth, w.contents - Subtree(w.tree, w.depth, x))
  }

  // ---- Every request keeps a tree ----

  lemma CreatedFiles(t: Tree, parent: nat, name: string, isFile: bool, x: nat)
    requires parent in t.nodes && t.latest + 1 !in t.nodes
    ensures IsFile(Create(t, parent, name, isFile), x) <==> IsFile(t, x) || (x == t.latest + 1 && isFile)
  {
  }

  lemma CreatedContents(w: World, dir: nat, name: string, isFile: bool, content: string)
    requires WorldOk(w) && dir in w.tree.nodes && dir in w.depth && w.tree.latest + 1 !in w.tree.nodes
    requires isFile ==> content != ""
    ensures var v := Created(w, dir, name, isFile, content);
            && (forall x :: x in v.contents <==> IsFile(v.tree, x))
            && (forall x :: x in v.contents ==> v.contents[x] != "")
  {
    hide WellFormed, Create, IsFile;
    var v := Created(w, dir, name, isFile, content);
    forall x ensures x in v.contents <==> IsFile(v.tree, x) {
      CreatedFiles(w.tree, dir, name, isFile, x);
    }
  }

  lemma StillPrintable(t: Tree, u: Tree, x: nat, name: string)
    requires Printable(t) && AllIn(NameChars, name) && u.nodes.Keys <= t.nodes.Keys + {x}
    requires forall y :: y in u.nodes ==> u.nodes[y].name == if y == x then name else t.nodes[y].name
    ensures Printable(u)
  {
    hide AllIn;
  }

  lemma CreatedOk(w: World, dir: nat, name: string, isFile: bool, content: string)
    requires WorldOk(w) && dir in w.tree.nodes && dir in w.depth && !w.tree.nodes[dir].isFile && NewNameAllowed(name)
    requires name !in w.tree.nodes[dir].entries && (isFile ==> content != "") && w.tree.latest < INT_MAX
    ensures WorldOk(Created(w, dir, name, isFile, content))
  {
    hide WellFormed, IsFile, Create, Printable;
    FreshId(w.tree, w.depth);
    CreateKeepsTree(w.tree, w.depth, dir, name, isFile);
    CreatedNodes(w.tree, dir, name, isFile);
    StillPrintable(w.tree, Create(w.tree, dir, name, isFile), w.tree.latest + 1, name);
    CreatedContents(w, dir, name, isFile, content);
  }

  lemma RenamedOk(w: World, x: nat, name: string)
    requires WorldOk(w) && x in w.tree.nodes && x != w.tree.root && ParentOk(w.tree, x)
    requires NewNameAllowed(name) && MayRename(w.tree, x, name)
    ensures WorldOk(w.(tree := Rename(w.tree, x, name)))
  {
    hide WellFormed, Printable;
    RenameKeepsTree(w.tree, w.depth, x, name);
    StillPrintable(w.tree, Rename(w.tree, x, name), x, name);
  }

  lemma MovedOk(w: World, x: nat, dir: nat)
    requires WorldOk(w) && x in w.tree.nodes && x != w.tree.root && ParentOk(w.tree, x) && dir in w.tree.nodes
    requires MayMove(w.tree, w.depth, x, dir)
    ensures WorldOk(w.(tree := Move(w.tree, x, dir), depth := DepthAfterMove(w.tree, w.depth, x, dir)))
  {
    hide WellFormed, MayMove, DepthAfterMove;
    MoveKeepsTree(w.tree, w.depth, x, dir);
  }

  lemma NotIntoItself(w: World, x: nat, dir: nat)
    requires WorldOk(w) && x in w.tree.nodes && x != w.tree.root && ParentOk(w.tree, x) && dir in w.tree.nodes
    requires MayMove(w.tree, w.depth, x, dir)
    ensures dir != x
  {
    hide WellFormed;
  }

  lemma DeletedOk(w: World, x: nat)
    requires WorldOk(w) && x in w.tree.nodes && x != w.tree.root
    ensures WorldOk(Deleted(w, x))
  {
    hide WellFormed, Inside;
    WithoutIsTree(w.tree, w.depth, x);
  }

  lemma NextOk(w: World, req: Request)
    requires WorldOk(w) && Allowed(w, req)
    ensures WorldOk(Next(w, req))
  {
    hide WorldOk, Lookup, MayMove, MayRename;
    if Succeeds(w, req) {
      Known(w, req.path);
      var found := Lookup(w.tree, req.path);
      match req
      case Upload(path, content) => CreatedOk(w, found.dir, found.name, true, content);
      case MakeDir(path) => CreatedOk(w, found.dir, found.name, false, "");
      case RenameTo(path, newName) => RenamedOk(w, found.node, newName);
      case MoveTo(path, newDir) =>
        Known(w, newDir);
        MovedOk(w, found.node, Directory(w.tree, newDir).value);
      case Delete(path) => DeletedOk(w, found.node);
    }
  }

  lemma Known(w: World, path: string)
    requires WorldOk(w)
    ensures FoundOk(w.tree, Lookup(w.tree, path)) && w.tree.nodes.Keys <= w.depth.Keys
    ensures Directory(w.tree, path).Some? ==> Directory(w.tree, path).value in w.tree.nodes
    ensures Lookup(w.tree, path).Node? ==> Lookup(w.tree, path).dir != Lookup(w.tree, path).node
  {
    if Lookup(w.tree, path).Node? {
      LookupFinds(w.tree, w.depth, path);
      ParentDepth(w.tree, w.depth, Lookup(w.tree, path).node);
    }
    LookupFinds(w.tree, w.depth, path);
    DirectoryIsNode(w.tree, w.depth, path);
  }

  // ---- The conditions are exact ----

  /** The service is in order: a tree that can be stored, with exactly its files. */
  ghost predicate InOrder(w: World) {
    exists depth :: WorldOk(w.(depth := depth))
  }

  lemma InOrderParts(w: World)
    requires InOrder(w)
    ensures IsTree(w.tree) && Printable(w.tree) && w.tree.latest <= INT_MAX
    ensures forall x :: x in w.contents ==> w.contents[x] != ""
  {
    hide WellFormed, Printable;
  }

  lemma CreationIsExact(w: World, dir: nat, name: string, isFile: bool, content: string)
    requires WorldOk(w) && dir in w.tree.nodes && dir in w.depth && NameOk(name)
    requires name !in w.tree.nodes[dir].entries
    ensures InOrder(Created(w, dir, name, isFile, content)) <==>
            !w.tree.nodes[dir].isFile && AllIn(NameChars, name) && w.tree.latest < INT_MAX && (isFile ==> content != "")
  {
    hide WellFormed, IsFile, IsTree, Create, AllIn;
    var v := Created(w, dir, name, isFile, content);
    FreshId(w.tree, w.depth);
    CreateKeepsTree(w.tree, w.depth, dir, name, isFile);
    CreatedNodes(w.tree, dir, name, isFile);
    if InOrder(v) {
      InOrderParts(v);
      assert v.tree.nodes[v.tree.latest].name == name;
      assert isFile ==> w.tree.latest + 1 in v.contents && v.contents[w.tree.latest + 1] == content;
    } else if !w.tree.nodes[dir].isFile && AllIn(NameChars, name) && w.tree.latest < INT_MAX &&
              (isFile ==> content != "")
    {
      CreatedOk(w, dir, name, isFile, content);
      OwnDepth(v);
    }
  }

  lemma OwnDepth(w: World)
    requires WorldOk(w)
    ensures InOrder(w)
  {
    hide WellFormed, Printable;
    assert w == w.(depth := w.depth);
  }

  lemma RenamingIsExact(w: World, x: nat, name: string)
    requires WorldOk(w) && x in w.tree.nodes && x != w.tree.root && ParentOk(w.tree, x)
    ensures InOrder(w.(tree := Rename(w.tree, x, name))) <==> NewNameAllowed(name) && MayRename(w.tree, x, name)
  {
    hide WellFormed, IsTree, AllIn, MayRename, NameOk;
    var v := w.(tree := Rename(w.tree, x, name));
    if InOrder(v) {
      InOrderParts(v);
      RenamedNodes(w.tree, x, name);
      NodeNamed(v.tree, x);
      RenameKeepsTree(w.tree, w.depth, x, name);
    } else if NewNameAllowed(name) && MayRename(w.tree, x, name) {
      RenamedOk(w, x, name);
      OwnDepth(v);
    }
  }

  lemma NodeNamed(t: Tree, x: nat)
    requires IsTree(t) && x in t.nodes && x != t.root
    ensures NameOk(t.nodes[x].name)
  {
    var depth :| WellFormed(t, depth);
    At(t, depth, x);
  }

  lemma MovingIsExact(w: World, x: nat, dir: nat)
    requires WorldOk(w) && x in w.tree.nodes && x != w.tree.root && ParentOk(w.tree, x) && dir in w.tree.nodes
    ensures InOrder(w.(tree := Move(w.tree, x, dir), depth := DepthAfterMove(w.tree, w.depth, x, dir))) <==>
            MayMove(w.tree, w.depth, x, dir)
  {
    hide WellFormed, IsTree, MayMove, DepthAfterMove;
    var v := w.(tree := Move(w.tree, x, dir), depth := DepthAfterMove(w.tree, w.depth, x, dir));
    MoveKeepsTree(w.tree, w.depth, x, dir);
    if InOrder(v) {
      InOrderParts(v);
    } else if MayMove(w.tree, w.depth, x, dir) {
      MovedOk(w, x, dir);
      OwnDepth(v);
    }
  }

  /** A request that succeeds leaves the service in order exactly if it is allowed. */
  lemma AllowedIsExact(w: World, req: Request)
    requires WorldOk(w) && Succeeds(w, req)
    ensures InOrder(Next(w, req)) <==> Allowed(w, req)
  {
    hide WorldOk, Lookup, MayMove, MayRename, InOrder, AllIn;
    Known(w, req.path);
    var found := Lookup(w.tree, req.path);
    match req
    case Upload(path, content) => CreationIsExact(w, found.dir, found.name, true, content);
    case MakeDir(path) => CreationIsExact(w, found.dir, found.name, false, "");
    case RenameTo(path, newName) => RenamingIsExact(w, found.node, newName);
    case MoveTo(path, newDir) =>
      Known(w, newDir);
      MovingIsExact(w, found.node, Directory(w.tree, newDir).value);
    case Delete(path) =>
      NextOk(w, req);
      OwnDepth(Next(w, req));
  }

  // ---- Runs ----

  ghost predicate AllAllowed(w: World, reqs: seq<Request>)
    decreases |reqs|
  {
    reqs == [] || (WorldOk(w) && Allowed(w, reqs[0]) && AllAllowed(Next(w, reqs[0]), reqs[1..]))
  }

  ghost function RunAll(w: World, reqs: seq<Request>): World
    requires WorldOk(w) && AllAllowed(w, reqs)
    decreases |reqs|
  {
    if reqs == [] then w
    else
      NextOk(w, reqs[0]);
      RunAll(Next(w, reqs[0]), reqs[1..])
  }

  /** Every run of allowed requests ends in a tree whose files are exactly the stored ones. */
  lemma {:induction false} RunOk(w: World, reqs: seq<Request>)
    requires WorldOk(w) && AllAllowed(w, reqs)
    ensures WorldOk(RunAll(w, reqs))
    decreases |reqs|
  {
    hide WorldOk, Allowed, Next;
    if reqs != [] {
      NextOk(w, reqs[0]);
      RunOk(Next(w, reqs[0]), reqs[1..]);
    }
  }
}
