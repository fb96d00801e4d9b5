/** What requests mean for paths, and how the handlers take a change back when the
    metadata could not be stored (frontend/storage.h:306-309, 346-349, 438-442, 556-559). */
module StorageEffects {
  import opened Text
  import opened StorageTree
  import opened StorageSubtree
  import opened StoragePath
  import opened StorageBreadth
  import opened StorageMetadata
  import opened StorageWorld
  import opened StorageDelete
  import opened StorageSteps

  // ---- Taking a change back ----

  function RemoveEntry(nodes: Table, dir: nat, name: string): Table
    requires dir in nodes
  {
    nodes[dir := nodes[dir].(entries := nodes[dir].entries - {name})]
  }

  function AddEntry(nodes: Table, dir: nat, name: string, id: nat): Table
    requires dir in nodes
  {
    nodes[dir := nodes[dir].(entries := nodes[dir].entries[name := id])]
  }

  function RevertCreate(u: Tree, dir: nat, name: string, id: nat): Tree
    requires dir in u.nodes && u.latest > 0
  {
    Tree(RemoveEntry(u.nodes, dir, name) - {id}, u.root, u.latest - 1)
  }

  function RevertRename(u: Tree, x: nat, dir: nat, newName: string, oldName: string): Tree
    requires x in u.nodes && dir in u.nodes && x != dir
  {
    var named := u.nodes[x := u.nodes[x].(name := oldName)];
    u.(nodes := AddEntry(RemoveEntry(named, dir, newName), dir, oldName, x))
  }

  function RevertMove(u: Tree, x: nat, oldDir: nat, newDir: nat, name: string): Tree
    requires x in u.nodes && oldDir in u.nodes && newDir in u.nodes
  {
    var linked := u.nodes[x := u.nodes[x].(parent := Some(oldDir))];
    u.(nodes := RemoveEntry(AddEntry(linked, oldDir, name, x), newDir, name))
  }

  function RevertDrop(u: Tree, x: nat, node: Dirent, dir: nat): Tree
    requires dir in u.nodes && dir != x
  {
    u.(nodes := AddEntry(u.nodes[x := node], dir, node.name, x))
  }

  lemma SameTree(t: Tree, u: Tree)
    requires t.root == u.root && t.latest == u.latest && t.nodes.Keys == u.nodes.Keys
    requires forall y :: y in t.nodes ==> u.nodes[y] == t.nodes[y]
    ensures u == t
  {
    assert u.nodes == t.nodes;
  }

  lemma EntryTakenBack(e: map<string, nat>, name: string, x: nat)
    requires name !in e
    ensures e[name := x] - {name} == e
  {
  }

  lemma CreateRevertsAt(t: Tree, dir: nat, name: string, isFile: bool)
    requires dir in t.nodes && t.latest + 1 !in t.nodes
    ensures dir in Create(t, dir, name, isFile).nodes && Create(t, dir, name, isFile).latest > 0
    ensures var u := RevertCreate(Create(t, dir, name, isFile), dir, name, t.latest + 1);
            && u.root == t.root && u.latest == t.latest && u.nodes.Keys == t.nodes.Keys
            && (forall y :: y in t.nodes && y != dir ==> u.nodes[y] == t.nodes[y])
            && u.nodes[dir] == t.nodes[dir].(entries := t.nodes[dir].entries[name := t.latest + 1] - {name})
  {
  }

  /** A creation is taken back completely. */
  lemma CreateReverts(t: Tree, depth: map<nat, nat>, dir: nat, name: string, isFile: bool)
    requires WellFormed(t, depth) && dir in t.nodes && name !in t.nodes[dir].entries
    ensures dir in Create(t, dir, name, isFile).nodes && Create(t, dir, name, isFile).latest > 0
    ensures RevertCreate(Create(t, dir, name, isFile), dir, name, t.latest + 1) == t
  {
    hide WellFormed, RevertCreate, Create;
    FreshId(t, depth);
    CreateRevertsAt(t, dir, name, isFile);
    EntryTakenBack(t.nodes[dir].entries, name, t.latest + 1);
    SameTree(t, RevertCreate(Create(t, dir, name, isFile), dir, name, t.latest + 1));
  }

  lemma RenameRevertsAt(t: Tree, x: nat, newName: string)
    requires x in t.nodes && ParentOk(t, x) && Parent(t, x) != x
    ensures var p, name := Parent(t, x), t.nodes[x].name;
            var u := RevertRename(Rename(t, x, newName), x, p, newName, name);
            && u.root == t.root && u.latest == t.latest && u.nodes.Keys == t.nodes.Keys
            && (forall y :: y in t.nodes && y != p ==> u.nodes[y] == t.nodes[y])
            && u.nodes[p] ==
               t.nodes[p].(entries := ((t.nodes[p].entries - {name})[newName := x] - {newName})[name := x])
  {
  }

  /** A renaming is taken back exactly when it did not overwrite another entry. */
  lemma RenameReverts(t: Tree, depth: map<nat, nat>, x: nat, newName: string)
    requires WellFormed(t, depth) && x in t.nodes && x != t.root
    ensures ParentOk(t, x) && Parent(t, x) != x
    ensures RevertRename(Rename(t, x, newName), x, Parent(t, x), newName, t.nodes[x].name) == t <==>
            MayRename(t, x, newName)
  {
    ParentDepth(t, depth, x);
    var p, name := Parent(t, x), t.nodes[x].name;
    var e := t.nodes[p].entries;
    RenameRevertsAt(t, x, newName);
    var u := RevertRename(Rename(t, x, newName), x, p, newName, name);
    EntriesRestored(e, name, newName, x);
    hide WellFormed, RevertRename, Rename;
    if MayRename(t, x, newName) {
      SameTree(t, u);
    } else {
      assert newName !in u.nodes[p].entries;
    }
  }

  lemma EntriesRestored(e: map<string, nat>, name: string, newName: string, x: nat)
    requires name in e && e[name] == x
    ensures var f := ((e - {name})[newName := x] - {newName})[name := x];
            (newName == name || newName !in e ==> f == e) && (newName != name ==> newName !in f)
    ensures (e - {name})[name := x] == e
  {
  }

  lemma MoveRevertsAt(t: Tree, x: nat, dir: nat)
    requires x in t.nodes && ParentOk(t, x) && Parent(t, x) != x && dir in t.nodes && dir != x
    ensures Move(t, x, dir).nodes.Keys == t.nodes.Keys
    ensures var p, name := Parent(t, x), t.nodes[x].name;
            var u := RevertMove(Move(t, x, dir), x, p, dir, name);
            && u.root == t.root && u.latest == t.latest && u.nodes.Keys == t.nodes.Keys
            && (forall y :: y in t.nodes && y != p && y != dir ==> u.nodes[y] == t.nodes[y])
            && name !in u.nodes[dir].entries
            && (p != dir ==> u.nodes[p] == t.nodes[p].(entries := (t.nodes[p].entries - {name})[name := x]))
            && (p != dir ==> u.nodes[dir] == t.nodes[dir].(entries := t.nodes[dir].entries[name := x] - {name}))
  {
  }

  /** A move is taken back exactly when it led to another directory without an entry of
      the same name; a move into the same directory loses the entry. */
  lemma MoveReverts(t: Tree, depth: map<nat, nat>, x: nat, dir: nat)
    requires WellFormed(t, depth) && x in t.nodes && x != t.root && dir in t.nodes && dir != x
    ensures ParentOk(t, x) && Parent(t, x) != x
    ensures RevertMove(Move(t, x, dir), x, Parent(t, x), dir, t.nodes[x].name) == t <==>
            t.nodes[x].name !in t.nodes[dir].entries
  {
    ParentDepth(t, depth, x);
    var p, name := Parent(t, x), t.nodes[x].name;
    hide WellFormed, RevertMove, Move;
    MoveRevertsAt(t, x, dir);
    EntriesRestored(t.nodes[p].entries, name, name, x);
    if name !in t.nodes[dir].entries {
      hide ParentOk;
      EntryTakenBack(t.nodes[dir].entries, name, x);
      SameTree(t, RevertMove(Move(t, x, dir), x, p, dir, name));
    }
  }

  lemma DropRevertsAt(t: Tree, x: nat)
    requires x in t.nodes && ParentOk(t, x) && Parent(t, x) != x
    ensures Parent(t, x) in Drop(t, x).nodes
    ensures var p, name := Parent(t, x), t.nodes[x].name;
            var u := RevertDrop(Drop(t, x), x, t.nodes[x], p);
            && u.root == t.root && u.latest == t.latest && u.nodes.Keys == t.nodes.Keys
            && (forall y :: y in t.nodes && y != p ==> u.nodes[y] == t.nodes[y])
            && u.nodes[p] == t.nodes[p].(entries := (t.nodes[p].entries - {name})[name := x])
  {
  }

  /** The removal of a node is taken back completely. */
  lemma DropReverts(t: Tree, depth: map<nat, nat>, x: nat)
    requires WellFormed(t, depth) && x in t.nodes && x != t.root
    ensures ParentOk(t, x) && Parent(t, x) != x && Parent(t, x) in Drop(t, x).nodes
    ensures RevertDrop(Drop(t, x), x, t.nodes[x], Parent(t, x)) == t
  {
    ParentDepth(t, depth, x);
    DropRevertsAt(t, x);
    EntriesRestored(t.nodes[Parent(t, x)].entries, t.nodes[x].name, t.nodes[x].name, x);
    hide WellFormed, RevertDrop, Drop;
    SameTree(t, RevertDrop(Drop(t, x), x, t.nodes[x], Parent(t, x)));
  }

  // ---- Paths after a request ----

  lemma {:induction false} WalkAfterCreate(t: Tree, from: nat, name: string, path: string, dir: nat, last: string,
                                           isFile: bool)
    requires t.latest + 1 !in t.nodes && dir in t.nodes && last !in t.nodes[dir].entries
    requires Walk(t, from, name, path) == NoEntry(dir, last)
    ensures Walk(Create(t, dir, last, isFile), from, name, path) == Node(dir, last, t.latest + 1)
    decreases |path|
  {
    var n, u := SlashAt(path), Create(t, dir, last, isFile);
    if n < |path| {
      if n == 0 {
        WalkAfterCreate(t, from, name, path[1..], dir, last, isFile);
      } else {
        assert u.nodes[from].entries[path[..n]] == t.nodes[from].entries[path[..n]];
        WalkAfterCreate(t, t.nodes[from].entries[path[..n]], path[..n], path[n + 1..], dir, last, isFile);
      }
    }
  }

  /** An uploaded file is found under its path, with its content. */
  lemma UploadThenDownload(w: World, path: string, content: string)
    requires WorldOk(w) && Allowed(w, Upload(path, content)) && Succeeds(w, Upload(path, content))
    ensures var v := Next(w, Upload(path, content));
            && Lookup(v.tree, path) == Node(Lookup(w.tree, path).dir, Lookup(w.tree, path).name, w.tree.latest + 1)
            && w.tree.latest + 1 in v.contents && v.contents[w.tree.latest + 1] == content
  {
    hide WellFormed, Lookup, Create, WorldOk, Allowed, Next;
    Known(w, path);
    FreshIn(w);
    var found := Lookup(w.tree, path);
    NextUpload(w, path, content);
    LookupAfterCreate(w.tree, path, found.dir, found.name, true);
  }

  lemma FreshIn(w: World)
    requires WorldOk(w)
    ensures w.tree.latest + 1 !in w.tree.nodes
  {
    FreshId(w.tree, w.depth);
  }

  lemma NextUpload(w: World, path: string, content: string)
    requires WorldOk(w) && Lookup(w.tree, path).NoEntry?
    ensures var found, v := Lookup(w.tree, path), Next(w, Upload(path, content));
            && v.tree == Create(w.tree, found.dir, found.name, true)
            && v.contents == w.contents[w.tree.latest + 1 := content]
  {
    hide WellFormed, Lookup, Create, WorldOk;
    Known(w, path);
  }

  lemma CreateParts(t: Tree, dir: nat, name: string, isFile: bool)
    ensures Create(t, dir, name, isFile).root == t.root && Create(t, dir, name, isFile).latest == t.latest + 1
  {
  }

  lemma LookupAfterCreate(t: Tree, path: string, dir: nat, name: string, isFile: bool)
    requires t.latest + 1 !in t.nodes && dir in t.nodes && name !in t.nodes[dir].entries
    requires Lookup(t, path) == NoEntry(dir, name)
    ensures Lookup(Create(t, dir, name, isFile), path) == Node(dir, name, t.latest + 1)
  {
    hide Walk, Create;
    CreateParts(t, dir, name, isFile);
    WalkAfterCreate(t, t.root, "", path, dir, name, isFile);
  }

  lemma {:induction false} KeptNames(t: Tree, depth: map<nat, nat>, kept: set<nat>, y: nat)
    requires WellFormed(t, depth) && WellFormed(Keep(t, kept), depth) && y in Keep(t, kept).nodes
    ensures Names(Keep(t, kept), depth, y) == Names(t, depth, y)
    decreases depth[y]
  {
    if y != t.root {
      ParentDepth(Keep(t, kept), depth, y);
      ParentDepth(t, depth, y);
      hide WellFormed;
      KeptNames(t, depth, kept, Parent(t, y));
    }
  }

  /** After a deletion the path leads nowhere. */
  lemma DeleteThenMissing(w: World, path: string)
    requires WorldOk(w) && Succeeds(w, Delete(path))
    ensures !Lookup(Next(w, Delete(path)).tree, path).Node?
  {
    var t, depth, x := w.tree, w.depth, Lookup(w.tree, path).node;
    Known(w, path);
    WithoutIsTree(t, depth, x);
    var u, kept := Without(t, depth, x), t.nodes.Keys - Subtree(t, depth, x);
    SelfInSubtree(t, depth, x);
    KeptKeysOf(t, kept);
    hide WellFormed, Lookup, Names, Subtree, Keep, Tokens, ParentOk;
    LookupIffPath(t, depth, path, x);
    if Lookup(u, path).Node? {
      var y := Lookup(u, path).node;
      LookupIffPath(u, depth, path, y);
      KeptNames(t, depth, kept, y);
      LookupIffPath(t, depth, path, y);
    }
  }

  lemma KeptKeysOf(t: Tree, kept: set<nat>)
    ensures Keep(t, kept).nodes.Keys == t.nodes.Keys * kept && Keep(t, kept).root == t.root
  {
  }

  lemma {:induction false} PathOutside(t: Tree, depth: map<nat, nat>, x: nat, dir: nat, y: nat)
    requires WellFormed(t, depth) && x in t.nodes && x != t.root && ParentOk(t, x) && dir in t.nodes
    requires MayMove(t, depth, x, dir) && y in t.nodes && !Inside(t, depth, y, x)
    ensures WellFormed(Move(t, x, dir), DepthAfterMove(t, depth, x, dir)) && y in Move(t, x, dir).nodes
    ensures PathOf(Move(t, x, dir), DepthAfterMove(t, depth, x, dir), y) == PathOf(t, depth, y)
    decreases depth[y]
  {
    MoveKeepsTree(t, depth, x, dir);
    MovedNode(t, x, dir, y);
    SelfInside(t, depth, x);
    if y != t.root {
      ParentDepth(t, depth, y);
      InsideDown(t, depth, y, x);
      hide WellFormed, MayMove, Move, DepthAfterMove, ParentOk;
      PathOutside(t, depth, x, dir, Parent(t, y));
    }
  }

  lemma MovedNode(t: Tree, x: nat, dir: nat, y: nat)
    requires x in t.nodes && t.nodes[x].parent.Some? && y in t.nodes
    ensures var d := Move(t, x, dir).nodes[y];
            && d.name == t.nodes[y].name && (y != x ==> d.parent == t.nodes[y].parent)
            && (y == x ==> d.parent == Some(dir))
    ensures Move(t, x, dir).root == t.root && Move(t, x, dir).nodes.Keys == t.nodes.Keys
  {
  }

  /** A moved entry is found below the new directory, under its old name. */
  lemma MovedPath(t: Tree, depth: map<nat, nat>, x: nat, dir: nat)
    requires WellFormed(t, depth) && x in t.nodes && x != t.root && ParentOk(t, x) && dir in t.nodes
    requires MayMove(t, depth, x, dir)
    ensures WellFormed(Move(t, x, dir), DepthAfterMove(t, depth, x, dir)) && x in Move(t, x, dir).nodes
    ensures PathOf(Move(t, x, dir), DepthAfterMove(t, depth, x, dir), x) ==
            PathOf(t, depth, dir) + "/" + t.nodes[x].name
  {
    PathOutside(t, depth, x, dir, dir);
    MovedNode(t, x, dir, x);
    hide WellFormed, MayMove, Move, DepthAfterMove, ParentOk, Inside;
  }

  /** The movable directories without an entry of the same name are exactly the ones into
      which a move changes the tree and keeps it a tree. */
  lemma MovableIffSafe(w: World, x: nat, dir: nat)
    requires WorldOk(w) && x in w.tree.nodes && x != w.tree.root && dir in w.tree.nodes
    ensures w.tree.nodes[x].parent.Some?
    ensures Movable(w, x, dir) && w.tree.nodes[x].name !in w.tree.nodes[dir].entries <==>
            IsTree(Move(w.tree, x, dir)) && dir != Parent(w.tree, x)
  {
    MoveKeepsTree(w.tree, w.depth, x, dir);
    hide WellFormed, IsTree, Inside;
  }
}
