/** What a request does to the tree and the files, told by paths, names, kinds and parents
    (frontend/storage.h:265-577): when it succeeds, what it changes and what it leaves. */
module StorageRequests {
  import opened Text
  import opened StorageTree
  import opened StorageSubtree
  import opened StoragePath
  import opened StorageWorld
  import opened StorageEffects

  // ---- When a request succeeds ----

  /** The parts of the path name a place for a new entry: the node of all but the last one
      has no entry of the last name. */
  ghost predicate FreePlace(t: Tree, depth: map<nat, nat>, names: seq<string>)
    requires WellFormed(t, depth)
  {
    names != [] && exists d :: IsPlace(t, depth, names, d)
  }

  ghost predicate IsPlace(t: Tree, depth: map<nat, nat>, names: seq<string>, d: nat)
    requires WellFormed(t, depth) && names != []
  {
    d in t.nodes && Names(t, depth, d) == names[..|names| - 1] && names[|names| - 1] !in t.nodes[d].entries
  }

  /** The parts that a path looks up are those of a node. */
  ghost predicate Existing(t: Tree, depth: map<nat, nat>, path: string)
    requires WellFormed(t, depth)
  {
    exists x :: x in t.nodes && x != t.root && Names(t, depth, x) == NamesLookedUp(path)
  }

  lemma PlaceResolves(t: Tree, depth: map<nat, nat>, names: seq<string>, d: nat)
    requires WellFormed(t, depth) && names != []
    ensures IsPlace(t, depth, names, d) <==> Resolve(t, t.root, names) == NoEntry(d, names[|names| - 1])
  {
    hide WellFormed, Names, Resolve;
    var front, last := names[..|names| - 1], names[|names| - 1];
    assert names == front + [last];
    RootName(t, depth);
    if front == [] {
      assert names == [last];
      OneName(t, t.root, last);
      NamesOfRoot(t, depth, d);
    } else {
      ResolveSnoc(t, t.root, front, last);
      if IsPlace(t, depth, names, d) {
        NamesOfRoot(t, depth, d);
        NamesLead(t, depth, d);
        OneName(t, d, last);
      } else if Resolve(t, t.root, front).Node? {
        OnlyNamesLead(t, depth, front);
        OneName(t, Resolve(t, t.root, front).node, last);
      }
    }
  }

  lemma OneName(t: Tree, dir: nat, name: string)
    ensures Resolve(t, dir, [name]) ==
            if dir !in t.nodes then NoParent
            else if name in t.nodes[dir].entries then Node(dir, name, t.nodes[dir].entries[name])
            else NoEntry(dir, name)
  {
  }

  lemma NamesOfRoot(t: Tree, depth: map<nat, nat>, x: nat)
    requires WellFormed(t, depth)
    ensures x in t.nodes ==> (Names(t, depth, x) == [] <==> x == t.root)
  {
    hide WellFormed;
    if x in t.nodes {
      NamesAreOk(t, depth, x);
    }
  }

  /** A place for a new entry is found exactly under the paths that end in its name. */
  lemma PlaceIffPath(t: Tree, depth: map<nat, nat>, path: string, d: nat, name: string)
    requires WellFormed(t, depth)
    ensures Lookup(t, path) == NoEntry(d, name) <==>
            EndsInName(path) && Tokens(path) != [] && IsPlace(t, depth, Tokens(path), d) &&
            name == Tokens(path)[|Tokens(path)| - 1]
  {
    hide WellFormed, Walk, Resolve, Tokens, Names, Slashes;
    if EndsInName(path) {
      WalkResolves(t, t.root, "", path);
      PlaceResolves(t, depth, Tokens(path), d);
      LastOfNoEntry(t, t.root, Tokens(path));
    } else {
      var q, s := SplitTrailing(path);
      if q != "" {
        assert s != "" by {
          assert s == "" ==> q == path;
        }
        TrailingSlashes(t, depth, q, s);
      } else {
        assert "" + s == s;
        if path != "/" {
          OnlySlashes(t, depth, path);
        }
      }
    }
  }

  lemma {:induction false} LastOfNoEntry(t: Tree, dir: nat, names: seq<string>)
    requires names != []
    ensures Resolve(t, dir, names).NoEntry? ==> Resolve(t, dir, names).name == names[|names| - 1]
    decreases |names|
  {
    if |names| > 1 && dir in t.nodes && names[0] in t.nodes[dir].entries {
      LastOfNoEntry(t, t.nodes[dir].entries[names[0]], names[1..]);
    }
  }

  lemma ExistingIffNode(t: Tree, depth: map<nat, nat>, path: string)
    requires WellFormed(t, depth)
    ensures Lookup(t, path).Node? <==> Existing(t, depth, path)
  {
    hide WellFormed, Lookup, Names, NamesLookedUp;
    if Lookup(t, path).Node? {
      LookupIffPath(t, depth, path, Lookup(t, path).node);
    }
    if Existing(t, depth, path) {
      var x :| x in t.nodes && x != t.root && Names(t, depth, x) == NamesLookedUp(path);
      LookupIffPath(t, depth, path, x);
    }
  }

  /** When a request succeeds, for any paths: a creation needs a path that ends in a name
      with a free place for it, the others a path whose parts are those of a node, and a
      move a target that is one too, or "/". */
  lemma SucceedsIff(w: World, req: Request)
    requires WorldOk(w)
    ensures Succeeds(w, req) <==>
            match req
            case Upload(path, _) => EndsInName(path) && FreePlace(w.tree, w.depth, Tokens(path))
            case MakeDir(path) => EndsInName(path) && FreePlace(w.tree, w.depth, Tokens(path))
            case RenameTo(path, _) => Existing(w.tree, w.depth, path)
            case MoveTo(path, newDir) =>
              Existing(w.tree, w.depth, path) && (newDir == "/" || Existing(w.tree, w.depth, newDir))
            case Delete(path) => Existing(w.tree, w.depth, path)
  {
    hide WellFormed, Lookup, Existing, FreePlace, Tokens;
    ExistingIffNode(w.tree, w.depth, req.path);
    CreationSucceedsIff(w.tree, w.depth, req.path);
    if req.MoveTo? {
      ExistingIffNode(w.tree, w.depth, req.newDir);
      OnlyOneSlash(w.tree, req.newDir);
    }
  }

  lemma OnlyOneSlash(t: Tree, path: string)
    ensures Lookup(t, path).IsRoot? <==> path == "/"
  {
    NeverRoot(t, t.root, "", path);
  }

  lemma {:induction false} NeverRoot(t: Tree, dir: nat, name: string, path: string)
    ensures !Walk(t, dir, name, path).IsRoot?
    decreases |path|
  {
    var n := SlashAt(path);
    if dir in t.nodes && n < |path| {
      if n == 0 {
        NeverRoot(t, dir, name, path[1..]);
      } else if path[..n] in t.nodes[dir].entries {
        NeverRoot(t, t.nodes[dir].entries[path[..n]], path[..n], path[n + 1..]);
      }
    }
  }

  lemma CreationSucceedsIff(t: Tree, depth: map<nat, nat>, path: string)
    requires WellFormed(t, depth)
    ensures Lookup(t, path).NoEntry? <==> EndsInName(path) && FreePlace(t, depth, Tokens(path))
  {
    hide WellFormed, Lookup, Tokens, IsPlace;
    if Lookup(t, path).NoEntry? {
      PlaceIffPath(t, depth, path, Lookup(t, path).dir, Lookup(t, path).name);
    }
    if EndsInName(path) && FreePlace(t, depth, Tokens(path)) {
      var d :| IsPlace(t, depth, Tokens(path), d);
      PlaceIffPath(t, depth, path, d, Tokens(path)[|Tokens(path)| - 1]);
    }
  }

  // ---- What a request changes, and what it leaves ----

  /** Every other node keeps its name, kind and parent. */
  ghost predicate OthersKept(t: Tree, u: Tree, x: nat) {
    && u.root == t.root
    && forall y :: y in t.nodes && y != x ==> y in u.nodes && SameNode(u.nodes[y], t.nodes[y])
  }

  /** Uploading makes one new file below the directory found, with the content; making a
      directory makes an empty directory and no file. */
  lemma CreationTakesEffect(w: World, path: string, isFile: bool, content: string)
    requires WorldOk(w)
    requires var req := if isFile then Upload(path, content) else MakeDir(path); Allowed(w, req) && Succeeds(w, req)
    ensures var req := if isFile then Upload(path, content) else MakeDir(path);
            var v, found, id := Next(w, req), Lookup(w.tree, path), w.tree.latest + 1;
            && id !in w.tree.nodes && v.tree.nodes.Keys == w.tree.nodes.Keys + {id} && v.tree.latest == id
            && v.tree.nodes[id] == Dirent(found.name, isFile, Some(found.dir), false, map[])
            && Lookup(v.tree, path) == Node(found.dir, found.name, id)
            && OthersKept(w.tree, v.tree, id)
            && v.contents == (if isFile then w.contents[id := content] else w.contents)
  {
    hide WellFormed, Lookup, Create, WorldOk, Allowed, Next;
    Known(w, path);
    FreshIn(w);
    var found := Lookup(w.tree, path);
    NextCreation(w, path, isFile, content);
    CreatedNodes(w.tree, found.dir, found.name, isFile);
    CreateParts(w.tree, found.dir, found.name, isFile);
    LookupAfterCreate(w.tree, path, found.dir, found.name, isFile);
  }

  lemma NextCreation(w: World, path: string, isFile: bool, content: string)
    requires WorldOk(w) && Lookup(w.tree, path).NoEntry?
    ensures var found, id := Lookup(w.tree, path), w.tree.latest + 1;
            var v := Next(w, if isFile then Upload(path, content) else MakeDir(path));
            && v.tree == Create(w.tree, found.dir, found.name, isFile)
            && v.contents == (if isFile then w.contents[id := content] else w.contents)
  {
    hide WellFormed, Lookup, Create, WorldOk;
    Known(w, path);
  }

  /** Renaming gives the entry the new name, in the same directory, and nothing else. */
  lemma RenamingTakesEffect(w: World, path: string, newName: string)
    requires WorldOk(w) && Allowed(w, RenameTo(path, newName)) && Succeeds(w, RenameTo(path, newName))
    ensures var v, x := Next(w, RenameTo(path, newName)), Lookup(w.tree, path).node;
            && WorldOk(v) && x in w.tree.nodes && ParentOk(w.tree, x)
            && v.tree.nodes.Keys == w.tree.nodes.Keys
            && SameNode(v.tree.nodes[x], w.tree.nodes[x].(name := newName))
            && PathOf(v.tree, v.depth, x) == PathOf(v.tree, v.depth, Parent(w.tree, x)) + "/" + newName
            && OthersKept(w.tree, v.tree, x)
            && v.contents == w.contents && v.tree.latest == w.tree.latest
  {
    var v, x := Next(w, RenameTo(path, newName)), Lookup(w.tree, path).node;
    NextOk(w, RenameTo(path, newName));
    Known(w, path);
    RenameParts(w.tree, x, newName);
    RenamedNodes(w.tree, x, newName);
    hide Lookup, Allowed, Next, Rename, PathOf;
    LastPart(v.tree, v.depth, x);
  }

  lemma RenameParts(t: Tree, x: nat, name: string)
    requires x in t.nodes && t.nodes[x].parent.Some?
    ensures Rename(t, x, name).root == t.root && Rename(t, x, name).latest == t.latest
  {
  }

  lemma LastPart(t: Tree, depth: map<nat, nat>, x: nat)
    requires WellFormed(t, depth) && x in t.nodes && x != t.root
    ensures ParentOk(t, x) && PathOf(t, depth, x) == PathOf(t, depth, Parent(t, x)) + "/" + t.nodes[x].name
  {
    At(t, depth, x);
  }

  /** Moving gives the entry the new directory, under the same name, and nothing else. */
  lemma MoveTakesEffect(w: World, path: string, newDir: string)
    requires WorldOk(w) && Allowed(w, MoveTo(path, newDir)) && Succeeds(w, MoveTo(path, newDir))
    ensures Directory(w.tree, newDir).Some?
    ensures var v, x, dir := Next(w, MoveTo(path, newDir)), Lookup(w.tree, path).node, Directory(w.tree, newDir).value;
            && WorldOk(v) && x in w.tree.nodes && dir in w.tree.nodes
            && v.tree.nodes.Keys == w.tree.nodes.Keys
            && SameNode(v.tree.nodes[x], w.tree.nodes[x].(parent := Some(dir)))
            && PathOf(v.tree, v.depth, x) == PathOf(w.tree, w.depth, dir) + "/" + w.tree.nodes[x].name
            && OthersKept(w.tree, v.tree, x)
            && v.contents == w.contents && v.tree.latest == w.tree.latest
  {
    var v, x, dir := Next(w, MoveTo(path, newDir)), Lookup(w.tree, path).node, Directory(w.tree, newDir).value;
    NextOk(w, MoveTo(path, newDir));
    Known(w, path);
    Known(w, newDir);
    hide Lookup, PathOf, MayMove, DepthAfterMove;
    MoveKeepsTree(w.tree, w.depth, x, dir);
    MovedPath(w.tree, w.depth, x, dir);
    MoveParts(w.tree, x, dir);
  }

  lemma MoveParts(t: Tree, x: nat, dir: nat)
    requires x in t.nodes && t.nodes[x].parent.Some?
    ensures Move(t, x, dir).root == t.root && Move(t, x, dir).latest == t.latest
  {
  }

  /** Deleting takes away the entry and everything below it, with the contents of the files
      among it, and nothing else. */
  lemma DeletionTakesEffect(w: World, path: string)
    requires WorldOk(w) && Allowed(w, Delete(path)) && Succeeds(w, Delete(path))
    ensures var v, x := Next(w, Delete(path)), Lookup(w.tree, path).node;
            && (forall y :: y in v.tree.nodes <==> y in w.tree.nodes && !Inside(w.tree, w.depth, y, x))
            && (forall y :: y in v.tree.nodes ==> SameNode(v.tree.nodes[y], w.tree.nodes[y]))
            && (forall y :: y in v.contents <==>
                  y in w.contents && !(y in w.tree.nodes && Inside(w.tree, w.depth, y, x)))
            && (forall y :: y in v.contents ==> v.contents[y] == w.contents[y])
            && v.tree.root == w.tree.root && v.tree.latest == w.tree.latest
  {
    hide Lookup, Inside, WellFormed;
  }
}
