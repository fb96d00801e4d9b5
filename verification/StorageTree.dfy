/** A user's file tree (frontend/storage.h): nodes with parent links and entry maps. A
    pointer to a `Dirent` is the ID under which `directories_` owns it. */
module StorageTree {
  import opened Text

  datatype Dirent = Dirent(
    name: string,
    isFile: bool,
    parent: Option<nat>,
    isRoot: bool,
    entries: map<string, nat>)

  type Table = map<nat, Dirent>

  datatype Tree = Tree(nodes: Table, root: nat, latest: nat)

  /** The names the lookup can reach. */
  predicate NameOk(s: string) {
    s != "" && '/' !in s
  }

  // ---- Well-formed trees ----

  ghost predicate RootOk(t: Tree) {
    && t.root in t.nodes && t.nodes[t.root].isRoot && !t.nodes[t.root].isFile
    && t.nodes[t.root].parent == None && '/' !in t.nodes[t.root].name
  }

  /** Every entry leads to a node that carries the entry's name and points back. */
  ghost predicate EntriesOk(t: Tree, x: nat)
    requires x in t.nodes
  {
    forall n :: n in t.nodes[x].entries ==>
      var y := t.nodes[x].entries[n];
      y in t.nodes && y != t.root && t.nodes[y].parent == Some(x) && t.nodes[y].name == n
  }

  /** Every other node is an entry of a directory. */
  ghost predicate ParentOk(t: Tree, x: nat)
    requires x in t.nodes
  {
    && t.nodes[x].parent.Some? && !t.nodes[x].isRoot && NameOk(t.nodes[x].name)
    && var p := t.nodes[x].parent.value;
       p in t.nodes && !t.nodes[p].isFile &&
       t.nodes[x].name in t.nodes[p].entries && t.nodes[p].entries[t.nodes[x].name] == x
  }

  /** Following parent links always leads to lower depths, so there is no cycle. */
  ghost predicate DepthOk(t: Tree, depth: map<nat, nat>) {
    && t.nodes.Keys <= depth.Keys
    && forall x :: x in t.nodes && t.nodes[x].parent.Some? && t.nodes[x].parent.value in depth ==>
         depth[t.nodes[x].parent.value] < depth[x]
  }

  ghost predicate NodeOk(t: Tree, x: nat)
    requires x in t.nodes
  {
    && x <= t.latest && EntriesOk(t, x) && (x != t.root ==> ParentOk(t, x))
    && (t.nodes[x].isFile ==> t.nodes[x].entries == map[])
  }

  ghost predicate WellFormed(t: Tree, depth: map<nat, nat>) {
    RootOk(t) && DepthOk(t, depth) && forall x :: x in t.nodes ==> NodeOk(t, x)
  }

  ghost predicate IsTree(t: Tree) {
    exists depth :: WellFormed(t, depth)
  }

  function Parent(t: Tree, x: nat): nat
    requires x in t.nodes && t.nodes[x].parent.Some?
  {
    t.nodes[x].parent.value
  }

  /** Whether `c` is `x` or one of its ancestors. */
  ghost predicate Inside(t: Tree, depth: map<nat, nat>, x: nat, c: nat)
    requires WellFormed(t, depth) && x in t.nodes
    decreases depth[x]
  {
    x == c || (x != t.root && Inside(t, depth, Parent(t, x), c))
  }

  lemma {:induction false} InsideRoot(t: Tree, depth: map<nat, nat>, x: nat)
    requires WellFormed(t, depth) && x in t.nodes
    ensures Inside(t, depth, x, t.root)
    decreases depth[x]
  {
    if x != t.root {
      InsideRoot(t, depth, Parent(t, x));
    }
  }

  lemma {:induction false} InsideDeeper(t: Tree, depth: map<nat, nat>, x: nat, c: nat)
    requires WellFormed(t, depth) && x in t.nodes && Inside(t, depth, x, c)
    ensures c in t.nodes && depth[c] <= depth[x]
    decreases depth[x]
  {
    if x != c {
      InsideDeeper(t, depth, Parent(t, x), c);
    }
  }

  /** Names, kinds and parents; in a tree they determine the entries as well. */
  ghost predicate SameNode(d: Dirent, e: Dirent) {
    d.name == e.name && d.isFile == e.isFile && d.parent == e.parent && d.isRoot == e.isRoot
  }

  // ---- Creating (frontend/storage.h:430-436) ----

  function Create(t: Tree, parent: nat, name: string, isFile: bool): Tree {
    var id := t.latest + 1;
    Tree(map x | x in t.nodes.Keys + {id} ::
           if x == id then Dirent(name, isFile, Some(parent), false, map[])
           else if x == parent then t.nodes[x].(entries := t.nodes[x].entries[name := id])
           else t.nodes[x],
         t.root, id)
  }

  lemma CreatedEntriesOk(t: Tree, parent: nat, name: string, isFile: bool, x: nat)
    requires x in t.nodes && parent in t.nodes && t.root in t.nodes && t.latest + 1 !in t.nodes && EntriesOk(t, x)
    ensures EntriesOk(Create(t, parent, name, isFile), x)
  {
    var u, id := Create(t, parent, name, isFile), t.latest + 1;
    forall n | n in u.nodes[x].entries
      ensures var y := u.nodes[x].entries[n];
              y in u.nodes && y != u.root && u.nodes[y].parent == Some(x) && u.nodes[y].name == n
    {
      if u.nodes[x].entries[n] != id {
        assert n in t.nodes[x].entries;
      }
    }
  }

  lemma CreatedParentOk(t: Tree, parent: nat, name: string, isFile: bool, x: nat)
    requires x in t.nodes && parent in t.nodes && t.latest + 1 !in t.nodes && ParentOk(t, x)
    requires name !in t.nodes[parent].entries
    ensures ParentOk(Create(t, parent, name, isFile), x)
  {
  }

  lemma CreatedNode(t: Tree, parent: nat, name: string, isFile: bool)
    requires parent in t.nodes && !t.nodes[parent].isFile && t.latest + 1 !in t.nodes && NameOk(name)
    ensures NodeOk(Create(t, parent, name, isFile), t.latest + 1)
  {
    var u, id := Create(t, parent, name, isFile), t.latest + 1;
    assert u.nodes[parent].entries[name] == id;
  }

  lemma CreatedNodeOk(t: Tree, parent: nat, name: string, isFile: bool, x: nat)
    requires x in t.nodes && NodeOk(t, x) && parent in t.nodes && t.root in t.nodes && t.latest + 1 !in t.nodes
    requires !t.nodes[parent].isFile && name !in t.nodes[parent].entries
    ensures NodeOk(Create(t, parent, name, isFile), x)
  {
    hide EntriesOk, ParentOk;
    CreatedEntriesOk(t, parent, name, isFile, x);
    if x != t.root {
      CreatedParentOk(t, parent, name, isFile, x);
    }
  }

  lemma CreatedNodes(t: Tree, parent: nat, name: string, isFile: bool)
    requires parent in t.nodes && t.latest + 1 !in t.nodes
    ensures var u := Create(t, parent, name, isFile);
            && u.latest == t.latest + 1 && u.nodes.Keys == t.nodes.Keys + {u.latest}
            && u.nodes[u.latest] == Dirent(name, isFile, Some(parent), false, map[])
            && forall y :: y in t.nodes ==> SameNode(u.nodes[y], t.nodes[y])
  {
  }

  lemma FreshId(t: Tree, depth: map<nat, nat>)
    requires WellFormed(t, depth)
    ensures t.latest + 1 !in t.nodes
  {
    hide EntriesOk, ParentOk;
    assert t.latest + 1 in t.nodes ==> NodeOk(t, t.latest + 1);
  }

  /** Creating a node under a name that is free keeps a tree exactly when the place is a
      directory; the lookup also accepts a file there. */
  lemma CreateKeepsTree(t: Tree, depth: map<nat, nat>, parent: nat, name: string, isFile: bool)
    requires WellFormed(t, depth) && parent in t.nodes && NameOk(name) && name !in t.nodes[parent].entries
    ensures var u := Create(t, parent, name, isFile);
            && (IsTree(u) <==> !t.nodes[parent].isFile)
            && (!t.nodes[parent].isFile ==> WellFormed(u, depth[u.latest := depth[parent] + 1]))
            && u.latest !in t.nodes && u.nodes.Keys == t.nodes.Keys + {u.latest}
            && u.nodes[u.latest] == Dirent(name, isFile, Some(parent), false, map[])
            && forall y :: y in t.nodes ==> SameNode(u.nodes[y], t.nodes[y])
  {
    hide NodeOk, DepthOk;
    var u := Create(t, parent, name, isFile);
    FreshId(t, depth);
    CreatedNodes(t, parent, name, isFile);
    if !t.nodes[parent].isFile {
      forall x | x in u.nodes ensures NodeOk(u, x) {
        if x == t.latest + 1 {
          CreatedNode(t, parent, name, isFile);
        } else {
          CreatedNodeOk(t, parent, name, isFile, x);
        }
      }
      CreatedDepth(t, depth, parent, name, isFile);
      assert RootOk(u);
      assert WellFormed(u, depth[u.latest := depth[parent] + 1]);
    } else {
      FileWithEntries(u, parent, name);
    }
  }

  lemma CreatedDepth(t: Tree, depth: map<nat, nat>, parent: nat, name: string, isFile: bool)
    requires WellFormed(t, depth) && parent in t.nodes && t.latest + 1 !in t.nodes
    ensures parent in depth
    ensures DepthOk(Create(t, parent, name, isFile), depth[t.latest + 1 := depth[parent] + 1])
  {
    hide EntriesOk;
    var u, id := Create(t, parent, name, isFile), t.latest + 1;
    forall x | x in u.nodes && x != id && u.nodes[x].parent.Some? ensures u.nodes[x].parent.value != id {
      assert NodeOk(t, x);
    }
  }

  /** A file has no entries, so one that got an entry is in no tree. */
  lemma FileWithEntries(u: Tree, x: nat, name: string)
    requires x in u.nodes && u.nodes[x].isFile && name in u.nodes[x].entries
    ensures !IsTree(u)
  {
    hide EntriesOk, ParentOk, RootOk, DepthOk;
    BadNode(u, x);
  }

  lemma BadNode(u: Tree, x: nat)
    requires x in u.nodes && !NodeOk(u, x)
    ensures !IsTree(u)
  {
    hide NodeOk, RootOk, DepthOk;
  }

  // ---- Renaming (frontend/storage.h:341-344) ----

  function Rename(t: Tree, x: nat, name: string): Tree
    requires x in t.nodes && t.nodes[x].parent.Some?
  {
    t.(nodes := map y | y in t.nodes ::
                  var d := t.nodes[y];
                  d.(name := if y == x then name else d.name,
                     entries := if y == Parent(t, x) then (d.entries - {t.nodes[x].name})[name := x] else d.entries))
  }

  ghost predicate MayRename(t: Tree, x: nat, name: string)
    requires x in t.nodes && ParentOk(t, x)
  {
    name == t.nodes[x].name || name !in t.nodes[Parent(t, x)].entries
  }

  lemma RenamedEntriesOk(t: Tree, x: nat, name: string, y: nat)
    requires x in t.nodes && y in t.nodes && x != t.root && ParentOk(t, x) && EntriesOk(t, y)
    ensures EntriesOk(Rename(t, x, name), y)
  {
    var u, p := Rename(t, x, name), Parent(t, x);
    forall n | n in u.nodes[y].entries
      ensures var z := u.nodes[y].entries[n];
              z in u.nodes && z != u.root && u.nodes[z].parent == Some(y) && u.nodes[z].name == n
    {
      if y != p {
        assert n in t.nodes[y].entries;
        assert t.nodes[y].entries[n] != x;
      } else if n != name {
        assert n in t.nodes[p].entries && n != t.nodes[x].name;
        assert t.nodes[p].entries[n] != x;
      }
    }
  }

  lemma RenamedParentOk(t: Tree, x: nat, name: string, y: nat)
    requires x in t.nodes && y in t.nodes && ParentOk(t, x) && ParentOk(t, y) && NameOk(name) && MayRename(t, x, name)
    ensures ParentOk(Rename(t, x, name), y)
  {
    if y != x && Parent(t, y) == Parent(t, x) {
      assert t.nodes[y].name != t.nodes[x].name;
    }
  }

  lemma RenamedNodeOk(t: Tree, x: nat, name: string, y: nat)
    requires x in t.nodes && y in t.nodes && x != t.root && ParentOk(t, x) && NodeOk(t, y)
    requires NameOk(name) && MayRename(t, x, name)
    ensures NodeOk(Rename(t, x, name), y)
  {
    RenamedEntriesOk(t, x, name, y);
    var u := Rename(t, x, name);
    assert y != t.root ==> ParentOk(u, y) by {
      if y != t.root {
        RenamedParentOk(t, x, name, y);
      }
    }
    assert y == Parent(t, x) ==> !t.nodes[y].isFile;
    hide EntriesOk, ParentOk;
  }

  lemma RenamedNodes(t: Tree, x: nat, name: string)
    requires x in t.nodes && t.nodes[x].parent.Some?
    ensures var u := Rename(t, x, name);
            && u.nodes.Keys == t.nodes.Keys
            && forall y :: y in t.nodes ==>
                 SameNode(u.nodes[y], if y == x then t.nodes[y].(name := name) else t.nodes[y])
  {
  }

  lemma At(t: Tree, depth: map<nat, nat>, x: nat)
    requires WellFormed(t, depth) && x in t.nodes
    ensures x <= t.latest && EntriesOk(t, x)
    ensures t.nodes[x].isFile ==> t.nodes[x].entries == map[]
    ensures x != t.root ==> ParentOk(t, x)
    ensures x == t.root ==> RootOk(t)
  {
    hide EntriesOk, ParentOk, RootOk, DepthOk;
    assert NodeOk(t, x);
  }

  /** Renaming keeps a tree exactly when no other entry of the directory has the name. */
  lemma RenameKeepsTree(t: Tree, depth: map<nat, nat>, x: nat, name: string)
    requires WellFormed(t, depth) && x in t.nodes && x != t.root && NameOk(name)
    ensures ParentOk(t, x)
    ensures var u := Rename(t, x, name);
            && (IsTree(u) <==> MayRename(t, x, name))
            && (MayRename(t, x, name) ==> WellFormed(u, depth))
            && u.nodes.Keys == t.nodes.Keys
            && forall y :: y in t.nodes ==>
                 SameNode(u.nodes[y], if y == x then t.nodes[y].(name := name) else t.nodes[y])
  {
    hide NodeOk, EntriesOk;
    At(t, depth, x);
    RenamedNodes(t, x, name);
    var u, p := Rename(t, x, name), Parent(t, x);
    if MayRename(t, x, name) {
      forall y | y in u.nodes ensures NodeOk(u, y) {
        RenamedNodeOk(t, x, name, y);
      }
      assert RootOk(u);
      assert WellFormed(u, depth);
    } else {
      EntryIsOther(t, depth, x, p, name);
      LosesEntry(t, depth, u, t.nodes[p].entries[name], p, name, x);
    }
  }

  lemma EntryIsOther(t: Tree, depth: map<nat, nat>, x: nat, p: nat, name: string)
    requires WellFormed(t, depth) && x in t.nodes && p in t.nodes && ParentOk(t, x)
    requires name in t.nodes[p].entries && (p != Parent(t, x) || name != t.nodes[x].name)
    ensures t.nodes[p].entries[name] != x
  {
    hide RootOk, DepthOk;
    At(t, depth, p);
  }

  /** When the entry of `y` is overwritten, `y` is lost. */
  lemma LosesEntry(t: Tree, depth: map<nat, nat>, u: Tree, y: nat, p: nat, name: string, x: nat)
    requires WellFormed(t, depth) && p in t.nodes && name in t.nodes[p].entries && t.nodes[p].entries[name] == y != x
    requires u.root == t.root && (y in u.nodes <==> y in t.nodes) && p in u.nodes
    requires y in t.nodes ==> u.nodes[y].parent == t.nodes[y].parent && u.nodes[y].name == t.nodes[y].name
    requires name in u.nodes[p].entries && u.nodes[p].entries[name] == x
    ensures !IsTree(u)
  {
    hide ParentOk, RootOk;
    At(t, depth, p);
    OrphanedEntry(u, y, p, name);
  }

  /** A node whose directory entry leads elsewhere is lost. */
  lemma OrphanedEntry(u: Tree, y: nat, p: nat, name: string)
    requires y in u.nodes && y != u.root && u.nodes[y].parent == Some(p) && u.nodes[y].name == name
    requires p in u.nodes ==> name !in u.nodes[p].entries || u.nodes[p].entries[name] != y
    ensures !IsTree(u)
  {
    assert !ParentOk(u, y);
    hide EntriesOk, ParentOk, RootOk, DepthOk;
    BadNode(u, y);
  }

  // ---- Moving (frontend/storage.h:301-304) ----

  function Move(t: Tree, x: nat, dir: nat): Tree
    requires x in t.nodes && t.nodes[x].parent.Some?
  {
    t.(nodes := map y | y in t.nodes ::
                  var d := t.nodes[y];
                  var kept := if y == Parent(t, x) then d.entries - {t.nodes[x].name} else d.entries;
                  d.(parent := if y == x then Some(dir) else d.parent,
                     entries := if y == dir then kept[t.nodes[x].name := x] else kept))
  }

  /** The condition under which a move is safe; a caller can check it before the call. */
  ghost predicate MayMove(t: Tree, depth: map<nat, nat>, x: nat, dir: nat)
    requires WellFormed(t, depth) && x in t.nodes && x != t.root && ParentOk(t, x) && dir in t.nodes
  {
    && !t.nodes[dir].isFile && !Inside(t, depth, dir, x)
    && (dir == Parent(t, x) || t.nodes[x].name !in t.nodes[dir].entries)
  }

  ghost function DepthAfterMove(t: Tree, depth: map<nat, nat>, x: nat, dir: nat): map<nat, nat>
    requires WellFormed(t, depth) && x in t.nodes && dir in t.nodes
  {
    map y | y in t.nodes :: if Inside(t, depth, y, x) then depth[y] + depth[dir] + 1 else depth[y]
  }

  lemma MovedEntriesOk(t: Tree, x: nat, dir: nat, y: nat)
    requires x in t.nodes && y in t.nodes && dir in t.nodes && x != t.root && ParentOk(t, x) && EntriesOk(t, y)
    ensures EntriesOk(Move(t, x, dir), y)
  {
    var u, name := Move(t, x, dir), t.nodes[x].name;
    forall n | n in u.nodes[y].entries
      ensures var z := u.nodes[y].entries[n];
              z in u.nodes && z != u.root && u.nodes[z].parent == Some(y) && u.nodes[z].name == n
    {
      if y != dir || n != name {
        assert n in t.nodes[y].entries;
        assert t.nodes[y].entries[n] != x;
      }
    }
  }

  lemma MovedParentOk(t: Tree, x: nat, dir: nat, y: nat)
    requires x in t.nodes && y in t.nodes && dir in t.nodes && ParentOk(t, x) && ParentOk(t, y)
    requires !t.nodes[dir].isFile && (dir == Parent(t, x) || t.nodes[x].name !in t.nodes[dir].entries)
    ensures ParentOk(Move(t, x, dir), y)
  {
    if y != x && Parent(t, y) == Parent(t, x) {
      assert t.nodes[y].name != t.nodes[x].name;
    }
  }

  lemma MovedNodeOk(t: Tree, x: nat, dir: nat, y: nat)
    requires x in t.nodes && y in t.nodes && dir in t.nodes && x != t.root && ParentOk(t, x) && NodeOk(t, y)
    requires !t.nodes[dir].isFile && (dir == Parent(t, x) || t.nodes[x].name !in t.nodes[dir].entries)
    ensures NodeOk(Move(t, x, dir), y)
  {
    MovedEntriesOk(t, x, dir, y);
    var u := Move(t, x, dir);
    assert y != t.root ==> ParentOk(u, y) by {
      if y != t.root {
        MovedParentOk(t, x, dir, y);
      }
    }
    assert y == Parent(t, x) ==> !t.nodes[y].isFile;
    hide EntriesOk, ParentOk;
  }

  lemma MovedNodes(t: Tree, x: nat, dir: nat)
    requires x in t.nodes && t.nodes[x].parent.Some?
    ensures var u := Move(t, x, dir);
            && u.nodes.Keys == t.nodes.Keys
            && forall y :: y in t.nodes ==>
                 SameNode(u.nodes[y], if y == x then t.nodes[y].(parent := Some(dir)) else t.nodes[y])
  {
  }

  lemma MovedDepth(t: Tree, depth: map<nat, nat>, x: nat, dir: nat)
    requires WellFormed(t, depth) && x in t.nodes && x != t.root && ParentOk(t, x) && dir in t.nodes
    requires !Inside(t, depth, dir, x)
    ensures DepthOk(Move(t, x, dir), DepthAfterMove(t, depth, x, dir))
  {
    var u, after := Move(t, x, dir), DepthAfterMove(t, depth, x, dir);
    forall y | y in u.nodes && u.nodes[y].parent.Some? && u.nodes[y].parent.value in after
      ensures after[u.nodes[y].parent.value] < after[y]
    {
      if y == x {
        assert Inside(t, depth, x, x);
      } else {
        assert NodeOk(t, y) && y != t.root;
        assert Inside(t, depth, y, x) <==> Inside(t, depth, Parent(t, y), x);
      }
    }
  }

  /** Moving a node below itself ties its subtree into a cycle no depth can order. */
  lemma {:induction false} NoCycle(u: Tree, depth: map<nat, nat>, after: map<nat, nat>, t: Tree, x: nat, y: nat)
    requires WellFormed(t, depth) && x in t.nodes && y in t.nodes && Inside(t, depth, y, x)
    requires DepthOk(u, after) && u.nodes.Keys == t.nodes.Keys
    requires forall z :: z in t.nodes && z != x ==> u.nodes[z].parent == t.nodes[z].parent
    ensures after[x] <= after[y]
    decreases depth[y]
  {
    if y != x {
      assert NodeOk(t, y);
      NoCycle(u, depth, after, t, x, Parent(t, y));
    }
  }

  /** Moving keeps a tree exactly when the target is a directory outside the moved
      subtree with no other entry of the same name; the nodes stay the same. */
  lemma MoveKeepsTree(t: Tree, depth: map<nat, nat>, x: nat, dir: nat)
    requires WellFormed(t, depth) && x in t.nodes && x != t.root && dir in t.nodes
    ensures ParentOk(t, x)
    ensures var u := Move(t, x, dir);
            && (IsTree(u) <==> MayMove(t, depth, x, dir))
            && (MayMove(t, depth, x, dir) ==> WellFormed(u, DepthAfterMove(t, depth, x, dir)))
            && u.nodes.Keys == t.nodes.Keys
            && forall y :: y in t.nodes ==>
                 SameNode(u.nodes[y], if y == x then t.nodes[y].(parent := Some(dir)) else t.nodes[y])
  {
    hide NodeOk, DepthOk, Inside, DepthAfterMove, EntriesOk;
    At(t, depth, x);
    MovedNodes(t, x, dir);
    var u := Move(t, x, dir);
    if MayMove(t, depth, x, dir) {
      forall y | y in u.nodes ensures NodeOk(u, y) {
        MovedNodeOk(t, x, dir, y);
      }
      MovedDepth(t, depth, x, dir);
      assert RootOk(u);
      assert WellFormed(u, DepthAfterMove(t, depth, x, dir));
    } else {
      UnsafeMove(t, depth, x, dir);
    }
  }

  lemma UnsafeMove(t: Tree, depth: map<nat, nat>, x: nat, dir: nat)
    requires WellFormed(t, depth) && x in t.nodes && x != t.root && ParentOk(t, x) && dir in t.nodes
    requires !MayMove(t, depth, x, dir)
    ensures !IsTree(Move(t, x, dir))
  {
    hide WellFormed, Inside, IsTree;
    var u, name := Move(t, x, dir), t.nodes[x].name;
    if t.nodes[dir].isFile {
      FileWithEntries(u, dir, name);
    } else if Inside(t, depth, dir, x) {
      Cyclic(t, depth, x, dir);
    } else {
      EntryIsOther(t, depth, x, dir, name);
      LosesEntry(t, depth, u, t.nodes[dir].entries[name], dir, name, x);
    }
  }

  lemma Cyclic(t: Tree, depth: map<nat, nat>, x: nat, dir: nat)
    requires WellFormed(t, depth) && x in t.nodes && x != t.root && ParentOk(t, x) && dir in t.nodes
    requires Inside(t, depth, dir, x)
    ensures !IsTree(Move(t, x, dir))
  {
    var u := Move(t, x, dir);
    assert u.nodes[x].parent == Some(dir);
    forall after: map<nat, nat> ensures !DepthOk(u, after) {
      NotDepthOk(t, depth, x, dir, u, after);
    }
    hide NodeOk, DepthOk, RootOk;
  }

  lemma NotDepthOk(t: Tree, depth: map<nat, nat>, x: nat, dir: nat, u: Tree, after: map<nat, nat>)
    requires WellFormed(t, depth) && x in t.nodes && dir in t.nodes && Inside(t, depth, dir, x)
    requires u.nodes.Keys == t.nodes.Keys && u.nodes[x].parent == Some(dir)
    requires forall z :: z in t.nodes && z != x ==> u.nodes[z].parent == t.nodes[z].parent
    ensures !DepthOk(u, after)
  {
    hide WellFormed, Inside;
    if DepthOk(u, after) {
      NoCycle(u, depth, after, t, x, dir);
      assert false;
    }
  }
}
