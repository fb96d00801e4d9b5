/** The steps of the file service's handler: what its assignments, its printing loop, its
    recursive deletion and its cells amount to. */
module StorageSteps {
  import opened Text
  import opened Regex
  import opened StorageTree
  import opened StorageSubtree
  import opened StoragePath
  import opened StorageBreadth
  import opened StorageMetadata
  import opened StorageReload
  import opened StorageDelete
  import opened StorageWorld

  lemma NextLine(rest: string)
    requires rest != ""
    ensures SplitLines(rest) != [] && |AfterLine(rest)| < |rest|
    ensures SplitLines(rest)[0] == Line(rest) && SplitLines(rest)[1..] == SplitLines(AfterLine(rest))
  {
  }

  lemma NoLines()
    ensures SplitLines("") == []
  {
  }

  method Listing(entries: map<string, nat>) returns (names: seq<string>)
    ensures IsListing(entries, names)
  {
    names := [];
    var rest := entries.Keys;
    while rest != {}
      invariant NoRepeats(names) && |names| + |rest| == |entries| && rest <= entries.Keys
      invariant forall n :: n in names <==> n in entries && n !in rest
      decreases |rest|
    {
      var n :| n in rest;
      names := names + [n];
      rest := rest - {n};
    }
  }

  // ---- The assignments of a handler amount to the operations on trees ----

  lemma CreateInPlace(t: Tree, dir: nat, name: string, isFile: bool)
    requires dir in t.nodes && t.latest + 1 !in t.nodes
    ensures var id := t.latest + 1;
            Create(t, dir, name, isFile) == Tree(Link(t.nodes, dir, name, id, isFile), t.root, id)
  {
    var id := t.latest + 1;
    LinkedTable(t.nodes, dir, name, id, isFile);
    assert Create(t, dir, name, isFile).nodes == Link(t.nodes, dir, name, id, isFile);
  }

  lemma RenameInPlace(t: Tree, x: nat, newName: string)
    requires x in t.nodes && ParentOk(t, x) && Parent(t, x) != x
    ensures var p, name := Parent(t, x), t.nodes[x].name;
            var a := t.nodes[x := t.nodes[x].(name := newName)];
            var b := a[p := a[p].(entries := a[p].entries - {name})];
            var c := b[p := b[p].(entries := b[p].entries[newName := x])];
            Rename(t, x, newName) == t.(nodes := c)
  {
    var p, name := Parent(t, x), t.nodes[x].name;
    var a := t.nodes[x := t.nodes[x].(name := newName)];
    var b := a[p := a[p].(entries := a[p].entries - {name})];
    var c := b[p := b[p].(entries := b[p].entries[newName := x])];
    assert Rename(t, x, newName).nodes == c;
  }

  lemma MoveInPlace(t: Tree, x: nat, dir: nat)
    requires x in t.nodes && ParentOk(t, x) && Parent(t, x) != x && dir in t.nodes && dir != x
    ensures var p, name := Parent(t, x), t.nodes[x].name;
            var a := t.nodes[x := t.nodes[x].(parent := Some(dir))];
            var b := a[p := a[p].(entries := a[p].entries - {name})];
            var c := b[dir := b[dir].(entries := b[dir].entries[name := x])];
            Move(t, x, dir) == t.(nodes := c)
  {
    var p, name := Parent(t, x), t.nodes[x].name;
    var a := t.nodes[x := t.nodes[x].(parent := Some(dir))];
    var b := a[p := a[p].(entries := a[p].entries - {name})];
    var c := b[dir := b[dir].(entries := b[dir].entries[name := x])];
    assert Move(t, x, dir).nodes == c;
  }

  lemma DropInPlace(t: Tree, x: nat)
    requires x in t.nodes && ParentOk(t, x) && Parent(t, x) != x
    ensures var p := Parent(t, x);
            Drop(t, x) ==
            t.(nodes := t.nodes[p := t.nodes[p].(entries := t.nodes[p].entries - {t.nodes[x].name})] - {x})
  {
    var p := Parent(t, x);
    assert Drop(t, x).nodes == t.nodes[p := t.nodes[p].(entries := t.nodes[p].entries - {t.nodes[x].name})] - {x};
  }

  // ---- Deleting entry by entry ----

  ghost function DeleteSize(w: World, path: string): nat
    requires WorldOk(w)
  {
    match Lookup(w.tree, path)
    case Node(_, _, x) => |Subtree(w.tree, w.depth, x)|
    case _ => 0
  }

  /** The world after the first `i` entries of `x` were deleted. */
  ghost function PartlyDeleted(w: World, x: nat, names: seq<string>, i: nat): World
    requires WorldOk(w) && EntriesOf(w.tree, x, names) && i <= |names|
  {
    World(Rest(w.tree, w.depth, x, names, i), w.depth, w.contents - Gone(w.tree, w.depth, x, names, i))
  }

  lemma NothingGone(w: World, x: nat, names: seq<string>)
    requires WorldOk(w) && EntriesOf(w.tree, x, names)
    ensures PartlyDeleted(w, x, names, 0) == w
  {
    RestIs(w.tree, w.depth, x, names, 0);
    hide WellFormed, IsListing, Keep;
    assert Gone(w.tree, w.depth, x, names, 0) == {};
    assert w.tree.nodes.Keys - {} == w.tree.nodes.Keys;
    KeepAll(w.tree, w.depth);
    assert w.contents - {} == w.contents;
  }

  lemma HoldsOk(cells: Cells, u: World)
    requires Holds(cells, u)
    ensures WorldOk(u)
  {
  }

  lemma EntryKnown(w: World, x: nat, names: seq<string>, i: nat)
    requires WorldOk(w) && EntriesOf(w.tree, x, names) && i < |names|
    ensures names[i] in w.tree.nodes[x].entries && w.tree.nodes[x].entries[names[i]] in w.tree.nodes
  {
    ChildOk(w.tree, w.depth, x, names, i);
  }

  ghost function ChildPath(w: World, x: nat, names: seq<string>, i: nat): string
    requires WorldOk(w) && EntriesOf(w.tree, x, names) && i < |names|
  {
    EntryKnown(w, x, names, i);
    StripUser(PathOf(w.tree, w.depth, w.tree.nodes[x].entries[names[i]]))
  }

  lemma FilesHaveNoEntries(w: World, x: nat, names: seq<string>)
    requires WorldOk(w) && EntriesOf(w.tree, x, names)
    requires w.tree.nodes[x].isFile || |w.tree.nodes[x].entries| == 0
    ensures |names| == 0
  {
    At(w.tree, w.depth, x);
  }

  lemma SmallerSubtree(t: Tree, depth: map<nat, nat>, x: nat, names: seq<string>, i: nat)
    requires WellFormed(t, depth) && EntriesOf(t, x, names) && i < |names| && names[i] in t.nodes[x].entries
    ensures |Subtree(t, depth, Child(t, x, names, i))| < |Subtree(t, depth, x)|
  {
    ChildOk(t, depth, x, names, i);
    var c := Child(t, x, names, i);
    SelfInside(t, depth, x);
    hide WellFormed, Inside;
    var inner, outer := Subtree(t, depth, c), Subtree(t, depth, x);
    forall y | y in inner ensures y in outer && y != x {
      InsideUp(t, depth, y, c);
      InsideDeeper(t, depth, y, c);
    }
    Smaller(inner, outer - {x});
  }

  lemma DeleteChild(w: World, path: string, x: nat, names: seq<string>, i: nat)
    requires WorldOk(w) && EntriesOf(w.tree, x, names) && i < |names|
    requires Lookup(w.tree, path).Node? && Lookup(w.tree, path).node == x
    requires WorldOk(PartlyDeleted(w, x, names, i))
    ensures var u, entry := PartlyDeleted(w, x, names, i), ChildPath(w, x, names, i);
            && Lookup(u.tree, entry).Node? && Succeeds(u, Delete(entry)) && Allowed(u, Delete(entry))
            && Next(u, Delete(entry)) == PartlyDeleted(w, x, names, i + 1)
            && DeleteSize(u, entry) < DeleteSize(w, path)
  {
    hide WellFormed, Rest, Gone, Without, Subtree, PathOf, StripUser, Walk, IsListing, Lookup, Inside, Keep;
    var u, entry, t := PartlyDeleted(w, x, names, i), ChildPath(w, x, names, i), w.tree;
    EntryKnown(w, x, names, i);
    var c := Child(t, x, names, i);
    RestIs(t, w.depth, x, names, i);
    DeleteNext(t, w.depth, x, names, i);
    KeptPath(t, w.depth, t.nodes.Keys - Gone(t, w.depth, x, names, i), c);
    PathRoundTrip(u.tree, w.depth, c);
    SmallerSubtree(t, w.depth, x, names, i);
    GoneNext(t, w.depth, x, names, i);
    assert u.contents - Subtree(t, w.depth, c) == w.contents - Gone(t, w.depth, x, names, i + 1);
  }

  lemma DeleteSelf(w: World, x: nat, names: seq<string>)
    requires WorldOk(w) && EntriesOf(w.tree, x, names) && x in w.tree.nodes && x != w.tree.root && ParentOk(w.tree, x)
    ensures var u := PartlyDeleted(w, x, names, |names|);
            && x in u.tree.nodes && ParentOk(u.tree, x) && u.tree.nodes[x].isFile == w.tree.nodes[x].isFile
            && u.tree.nodes[x].parent == w.tree.nodes[x].parent && u.tree.nodes[x].name == w.tree.nodes[x].name
            && Drop(u.tree, x) == Deleted(w, x).tree
            && Deleted(w, x).depth == u.depth
            && Deleted(w, x).contents == (if IsFile(u.tree, x) then u.contents - {x} else u.contents)
  {
    hide WellFormed, Rest, Gone, Without, Subtree, IsListing, Inside, Keep, Drop;
    DeleteLast(w.tree, w.depth, x, names);
    GoneInTheEnd(w.tree, w.depth, x, names);
    SelfInSubtree(w.tree, w.depth, x);
    var gone, all := Gone(w.tree, w.depth, x, names, |names|), Subtree(w.tree, w.depth, x);
    assert gone + {x} == all;
    assert w.contents - gone - {x} == w.contents - all;
    assert x !in w.contents ==> w.contents - gone == w.contents - all;
  }

  lemma SelfInSubtree(t: Tree, depth: map<nat, nat>, x: nat)
    requires WellFormed(t, depth) && x in t.nodes
    ensures x in Subtree(t, depth, x)
  {
  }

  // ---- Movable directories (frontend/storage.h:603-649) ----

  /** A directory outside the entry's own subtree, and not the one it is in. */
  ghost predicate Movable(w: World, x: nat, y: nat)
    requires WellFormed(w.tree, w.depth) && x in w.tree.nodes
  {
    IsDir(w.tree, y) && !Inside(w.tree, w.depth, y, x) && Some(y) != w.tree.nodes[x].parent
  }

  ghost function MovableTargets(w: World, path: string): set<nat>
    requires WorldOk(w)
  {
    DirectoryIsNode(w.tree, w.depth, path);
    match Directory(w.tree, path)
    case None => {}
    case Some(x) => set y | y in w.tree.nodes && Movable(w, x, y)
  }

  lemma TargetsOf(w: World, path: string, x: nat, parent: nat)
    requires WorldOk(w) && Directory(w.tree, path) == Some(x)
    requires match Lookup(w.tree, path)
             case IsRoot => parent == w.tree.root
             case Node(dir, _, _) => parent == dir
             case _ => false
    ensures x in w.tree.nodes
    ensures if x == w.tree.root then parent == w.tree.root else w.tree.nodes[x].parent == Some(parent)
    ensures forall y :: y in MovableTargets(w, path) <==> Movable(w, x, y)
  {
    DirectoryIsNode(w.tree, w.depth, path);
    LookupFinds(w.tree, w.depth, path);
    hide WellFormed, Lookup, Inside;
  }

  ghost predicate ArePaths(w: World, dirs: seq<nat>, paths: seq<string>)
    requires WellFormed(w.tree, w.depth)
  {
    && |paths| == |dirs|
    && forall i :: 0 <= i < |dirs| ==>
         dirs[i] in w.tree.nodes && paths[i] == PathOf(w.tree, w.depth, dirs[i])
  }

  /** The answer so far: the popped directories but `x` and its parent. */
  ghost predicate Listed(w: World, x: nat, parent: nat, all: seq<nat>, k: nat, dirs: seq<nat>, paths: seq<string>)
    requires WellFormed(w.tree, w.depth)
  {
    && k <= |all| && NoRepeats(dirs) && ArePaths(w, dirs, paths)
    && forall y :: y in dirs <==> y in all[..k] && y != x && y != parent
  }

  lemma ListedStart(w: World, x: nat, parent: nat)
    requires WellFormed(w.tree, w.depth)
    ensures Listed(w, x, parent, [w.tree.root], 0, [], [])
  {
  }

  lemma NextMovable(w: World, x: nat, order: Order, all: seq<nat>, k: nat)
    requires WellFormed(w.tree, w.depth) && Lists(w.tree, order) && Frontier(w.tree, Some(x), all, k) && k < |all|
    ensures IsDir(w.tree, all[k]) && all[k] in order && |w.tree.nodes| > k
    ensures forall n :: n in order[all[k]] ==>
              n in w.tree.nodes[all[k]].entries && w.tree.nodes[all[k]].entries[n] in w.tree.nodes
    ensures Frontier(w.tree, Some(x), all + Pushed(w.tree, Some(x), order, all[k]), k + 1)
  {
    assert IsDir(w.tree, all[k]);
    hide WellFormed, Lists, Frontier;
    NextRound(w.tree, w.depth, Some(x), order, all, k);
    FrontierFits(w.tree, Some(x), all, k);
    ListedAreNodes(w.tree, w.depth, order, all[k]);
  }

  lemma ListedSnoc(w: World, dirs: seq<nat>, paths: seq<string>, y: nat)
    requires WellFormed(w.tree, w.depth) && NoRepeats(dirs) && ArePaths(w, dirs, paths)
    requires y !in dirs && y in w.tree.nodes
    ensures NoRepeats(dirs + [y]) && ArePaths(w, dirs + [y], paths + [PathOf(w.tree, w.depth, y)])
  {
    hide WellFormed, PathOf;
  }

  lemma PoppedNext(t: Tree, stop: Option<nat>, all: seq<nat>, k: nat, children: seq<nat>)
    requires Frontier(t, stop, all, k) && k < |all|
    ensures IsDir(t, all[k]) && (all + children)[..k + 1] == all[..k] + [all[k]] && all[k] !in all[..k]
  {
    assert NoRepeats(all) && IsDir(t, all[k]);
    hide Frontier, IsDir;
  }

  lemma ListedStep(w: World, x: nat, parent: nat, all: seq<nat>, k: nat, children: seq<nat>, dirs: seq<nat>,
                   paths: seq<string>)
    requires WellFormed(w.tree, w.depth) && Listed(w, x, parent, all, k, dirs, paths) && k < |all|
    requires Frontier(w.tree, Some(x), all, k)
    ensures IsDir(w.tree, all[k])
    ensures all[k] == x || all[k] == parent ==> Listed(w, x, parent, all + children, k + 1, dirs, paths)
    ensures all[k] != x && all[k] != parent ==>
              Listed(w, x, parent, all + children, k + 1, dirs + [all[k]], paths + [PathOf(w.tree, w.depth, all[k])])
  {
    PoppedNext(w.tree, Some(x), all, k, children);
    hide WellFormed, Frontier, PathOf, NoRepeats, ArePaths;
    if all[k] != x && all[k] != parent {
      ListedSnoc(w, dirs, paths, all[k]);
    }
  }

  lemma ListedAll(w: World, x: nat, parent: nat, all: seq<nat>, dirs: seq<nat>, paths: seq<string>)
    requires WellFormed(w.tree, w.depth) && x in w.tree.nodes && Frontier(w.tree, Some(x), all, |all|)
    requires Listed(w, x, parent, all, |all|, dirs, paths)
    requires if x == w.tree.root then parent == w.tree.root else w.tree.nodes[x].parent == Some(parent)
    ensures NoRepeats(dirs) && ArePaths(w, dirs, paths)
    ensures forall y :: y in dirs <==> Movable(w, x, y)
  {
    var t := w.tree;
    assert all[..|all|] == all;
    SelfInside(t, w.depth, x);
    RootName(t, w.depth);
    assert forall i :: 0 <= i < |all| ==> IsDir(t, all[i]);
    hide WellFormed, Frontier, PathOf, NoRepeats, ArePaths, Inside;
    forall y ensures y in dirs <==> Movable(w, x, y) {
      if IsDir(t, y) {
        Reached(t, w.depth, Some(x), all, y);
        if x == t.root {
          InsideRoot(t, w.depth, y);
        }
      }
    }
  }

  // ---- What the cells hold ----

  lemma TreeStored(cells: Cells, contents: map<nat, string>, order: Order, t: Tree, depth: map<nat, nat>)
    requires HoldsFiles(cells, contents) && WellFormed(t, depth) && Lists(t, order)
    ensures var more := cells[METADATA := Metadata(t, depth, order)];
            HoldsFiles(more, contents) && HoldsTree(more, t, depth)
  {
    hide WellFormed, Lists, Metadata;
    forall x: nat ensures Dec(x) != METADATA {
      NotMetadata(x);
    }
  }

  lemma FilePut(cells: Cells, contents: map<nat, string>, id: nat, content: string)
    requires HoldsFiles(cells, contents)
    ensures HoldsFiles(cells[Dec(id) := content], contents[id := content])
  {
    hide Dec;
    forall x: nat | Dec(x) == Dec(id) ensures x == id {
      DecInjective(x, id);
    }
  }

  lemma FileDeleted(cells: Cells, contents: map<nat, string>, id: nat)
    requires HoldsFiles(cells, contents)
    ensures HoldsFiles(cells - {Dec(id)}, contents - {id})
    ensures View(cells - {Dec(id)}, METADATA) == View(cells, METADATA)
  {
    NotMetadata(id);
    hide Dec;
    forall x: nat | Dec(x) == Dec(id) ensures x == id {
      DecInjective(x, id);
    }
  }

  lemma MetadataKept(cells: Cells, id: nat, content: string, t: Tree, depth: map<nat, nat>)
    requires WellFormed(t, depth) && HoldsTree(cells, t, depth)
    ensures HoldsTree(cells[Dec(id) := content], t, depth)
    ensures View(cells[Dec(id) := content], METADATA) == View(cells, METADATA)
  {
    NotMetadata(id);
    hide WellFormed, Lists, Metadata;
  }

  ghost predicate AllNodes(t: Tree, dirs: seq<nat>) {
    forall j :: 0 <= j < |dirs| ==> dirs[j] in t.nodes
  }

  /** `text` and the sections that are left make up the whole text. */
  ghost predicate Printing(t: Tree, depth: map<nat, nat>, order: Order, all: seq<nat>, k: nat, text: string)
    requires WellFormed(t, depth) && Lists(t, order)
  {
    var dirs := Breadth(t, depth, None, order);
    && Frontier(t, None, all, k) && BreadthFirst(t, dirs) && AllNodes(t, dirs) && k <= |dirs|
    && Rounds(t, depth, None, order, all, k) == dirs
    && text + JoinLines(SectionsFrom(t, depth, order, dirs, k)) == Metadata(t, depth, order)
  }

  lemma PrintStart(t: Tree, depth: map<nat, nat>, order: Order)
    requires WellFormed(t, depth) && Lists(t, order)
    ensures Printing(t, depth, order, [t.root], 0, LatestLine(t.latest) + "\n")
  {
    Started(t, depth, None);
    var dirs := Breadth(t, depth, None, order);
    assert forall j :: 0 <= j < |dirs| ==> IsDir(t, dirs[j]);
    hide WellFormed, Lists, Frontier, Rounds, LatestLine, SectionsFrom;
    var sections := SectionsFrom(t, depth, order, dirs, 0);
    assert ([LatestLine(t.latest)] + sections)[1..] == sections;
  }

  /** The section that is printed in one round. */
  lemma PrintRound(t: Tree, depth: map<nat, nat>, order: Order, dirs: seq<nat>, all: seq<nat>, k: nat)
    requires WellFormed(t, depth) && Lists(t, order) && Frontier(t, None, all, k) && k < |all|
    requires Rounds(t, depth, None, order, all, k) == dirs && AllNodes(t, dirs)
    ensures k < |dirs| && dirs[k] == all[k] && all[k] in t.nodes && |t.nodes| > k
    ensures IsListing(t.nodes[all[k]].entries, order[all[k]])
    ensures forall n :: n in order[all[k]] ==> n in t.nodes[all[k]].entries
    ensures var more := all + ChildDirs(t, all[k], order[all[k]]);
            && Frontier(t, None, more, k + 1) && Rounds(t, depth, None, order, more, k + 1) == dirs
    ensures SectionsFrom(t, depth, order, dirs, k)
            == SectionLines(t, depth, order, all[k]) + SectionsFrom(t, depth, order, dirs, k + 1)
  {
    NextRound(t, depth, None, order, all, k);
    FrontierFits(t, None, all, k);
    hide WellFormed, Frontier, SectionLines;
    assert all <= dirs;
  }

  lemma PrintedSection(text: string, folder: string, entries: seq<string>, rest: seq<string>)
    ensures text + (folder + "\n" + JoinLines(entries)) + JoinLines(rest) == text + JoinLines([folder] + entries + rest)
  {
    var lines := [folder] + entries + rest;
    assert lines[0] == folder && lines[1..] == entries + rest;
    JoinLinesAppend(entries, rest);
    hide JoinLines;
    assert text + (folder + "\n" + JoinLines(entries)) + JoinLines(rest)
        == text + (folder + "\n" + (JoinLines(entries) + JoinLines(rest)));
  }

  lemma NextQueue(all: seq<nat>, k: nat, children: seq<nat>)
    requires k < |all|
    ensures all[k..][1..] + children == (all + children)[k + 1..]
  {
  }

  lemma PrintStep(t: Tree, depth: map<nat, nat>, order: Order, all: seq<nat>, k: nat, text: string)
    requires WellFormed(t, depth) && Lists(t, order) && Printing(t, depth, order, all, k, text) && k < |all|
    ensures all[k] in t.nodes && |t.nodes| > k && all[k] in order
    ensures IsListing(t.nodes[all[k]].entries, order[all[k]])
    ensures forall n :: n in order[all[k]] ==> n in t.nodes[all[k]].entries && t.nodes[all[k]].entries[n] in t.nodes
    ensures var d := all[k];
            var folder := FolderLine(d == t.root, PathOf(t, depth, d), d, |t.nodes[d].entries|);
            Printing(t, depth, order, all + ChildDirs(t, d, order[d]), k + 1,
                     text + (folder + "\n" + JoinLines(EntryLines(t, d, order[d]))))
  {
    var dirs, d := Breadth(t, depth, None, order), all[k];
    PrintRound(t, depth, order, dirs, all, k);
    ListedAreNodes(t, depth, order, d);
    hide WellFormed, Lists, Frontier, Metadata, FolderLine, PathOf, JoinLines, EntryLines, ChildDirs, IsListing,
      Breadth, Rounds, SectionsFrom, AllNodes;
    PrintedSection(text, FolderLine(d == t.root, PathOf(t, depth, d), d, |t.nodes[d].entries|),
                   EntryLines(t, d, order[d]), SectionsFrom(t, depth, order, dirs, k + 1));
  }

  lemma PrintEnd(t: Tree, depth: map<nat, nat>, order: Order, all: seq<nat>, k: nat, text: string)
    requires WellFormed(t, depth) && Lists(t, order) && Printing(t, depth, order, all, k, text) && k == |all|
    ensures text == Metadata(t, depth, order)
  {
    hide WellFormed, Lists, Frontier, Metadata, AllNodes;
    assert text + "" == text;
  }

  lemma LoadOfNothing()
    ensures Load("") == None
  {
  }

  // ---- The first tree of a user ----

  function FirstTree(usr: string): Tree {
    Tree(map[1 := Dirent(usr, false, None, true, map[])], 1, 1)
  }

  ghost function FirstWorld(usr: string): World {
    World(FirstTree(usr), map[1 := 0], map[])
  }

  lemma FirstTreeOk(usr: string)
    requires '/' !in usr
    ensures WellFormed(FirstTree(usr), map[1 := 0]) && Lists(FirstTree(usr), map[1 := []])
  {
    assert NodeOk(FirstTree(usr), 1);
  }

  lemma FirstWorldOk(usr: string)
    requires '/' !in usr
    ensures WellFormed(FirstTree(usr), map[1 := 0])
    ensures WorldOk(FirstWorld(usr)) <==> AllIn(NameChars, usr)
  {
    FirstTreeOk(usr);
    assert FirstTree(usr).nodes[1].name == usr;
    hide WellFormed, AllIn;
  }

  function FirstText(usr: string): string {
    "Latest ID: 1\nRoot folder: /" + usr + " ID 1 Items 0\n"
  }

  lemma FirstMetadata(usr: string)
    requires '/' !in usr
    ensures WellFormed(FirstTree(usr), map[1 := 0]) && Lists(FirstTree(usr), map[1 := []])
    ensures Metadata(FirstTree(usr), map[1 := 0], map[1 := []]) == FirstText(usr)
  {
    FirstTreeOk(usr);
    var t, depth, order := FirstTree(usr), map[1 := 0], map[1 := []];
    FirstBreadth(t, depth, order);
    FirstLines(t, depth, order, usr);
  }

  lemma FirstBreadth(t: Tree, depth: map<nat, nat>, order: Order)
    requires t.root == 1 && 1 in t.nodes && 1 in order && order[1] == []
    requires WellFormed(t, depth) && Lists(t, order)
    ensures Breadth(t, depth, None, order) == [1]
  {
    Started(t, depth, None);
    NextRound(t, depth, None, order, [1], 0);
    hide WellFormed, Lists, Frontier;
    assert Pushed(t, None, order, 1) == [];
    assert [1] + Pushed(t, None, order, 1) == [1] == [t.root];
    assert Rounds(t, depth, None, order, [1], 1) == [1];
    assert Rounds(t, depth, None, order, [t.root], 0) == [1];
  }

  lemma FirstLines(t: Tree, depth: map<nat, nat>, order: Order, usr: string)
    requires t == FirstTree(usr) && depth == map[1 := 0] && order == map[1 := []]
    requires WellFormed(t, depth) && Lists(t, order) && Breadth(t, depth, None, order) == [1]
    ensures Metadata(t, depth, order) == FirstText(usr)
  {
    var second := FolderLine(true, "/" + usr, 1, 0);
    assert PathOf(t, depth, 1) == "/" + usr;
    assert SectionsFrom(t, depth, order, [1], 0) ==
           SectionLines(t, depth, order, 1) + SectionsFrom(t, depth, order, [1], 1);
    assert SectionLines(t, depth, order, 1) == [second] + EntryLines(t, 1, []);
    assert MetadataLines(t, depth, order, [1]) == [LatestLine(1)] + [second];
    hide WellFormed, Lists, Breadth, SectionsFrom, SectionLines, FirstTree;
    FirstLinesJoined(usr);
  }

  lemma FirstFolder(usr: string)
    ensures Spaced("Root folder:", Spaced("/" + usr, "ID 1 Items 0")) == "Root folder: /" + usr + " ID 1 Items 0"
  {
  }

  lemma TwoLines(a: string, b: string)
    ensures JoinLines([a] + [b]) == a + "\n" + (b + "\n")
  {
    assert ([a] + [b])[1..] == [b] && [b][1..] == [];
    assert JoinLines([b]) == b + "\n" + JoinLines([]);
  }

  lemma FirstJoined(usr: string)
    ensures "Latest ID: 1" + "\n" + ("Root folder: /" + usr + " ID 1 Items 0" + "\n")
            == "Latest ID: 1\nRoot folder: /" + usr + " ID 1 Items 0\n"
  {
  }

  lemma FirstLinesJoined(usr: string)
    ensures JoinLines([LatestLine(1)] + [FolderLine(true, "/" + usr, 1, 0)])
            == "Latest ID: 1\nRoot folder: /" + usr + " ID 1 Items 0\n"
  {
    assert Dec(1) == "1" && Dec(0) == "0";
    assert LatestLine(1) == "Latest ID: 1";
    assert FolderEnd(1, 0) == "ID 1 Items 0";
    hide Dec, LatestLine, FolderEnd, JoinLines;
    TwoLines(LatestLine(1), FolderLine(true, "/" + usr, 1, 0));
    FirstFolder(usr);
    FirstJoined(usr);
  }

  /** The text written for a new user is the printed form of a tree with the root alone.
      It loads again, and the service is in order, if and only if the name is made of the
      format's characters; signing up guarantees only that it has no slash. */
  lemma FirstWorldStored(cells: Cells, usr: string)
    requires '/' !in usr && forall x: nat :: View(cells, Dec(x)) == ""
    ensures Holds(cells[METADATA := FirstText(usr)], FirstWorld(usr)) <==> AllIn(NameChars, usr)
    ensures Load(FirstText(usr)) == Some(Loaded(FirstTree(usr).nodes, Some(1), Some(1))) <==> AllIn(NameChars, usr)
  {
    FirstWorldOk(usr);
    FirstMetadata(usr);
    FirstPrintable(usr);
    hide WellFormed, Lists, Metadata, AllIn, Printable, Load, FirstText;
    MetadataRoundTrip(FirstTree(usr), map[1 := 0], map[1 := []]);
    assert HoldsFiles(cells, map[]);
    TreeStored(cells, map[], map[1 := []], FirstTree(usr), map[1 := 0]);
  }

  lemma FirstPrintable(usr: string)
    ensures Printable(FirstTree(usr)) <==> AllIn(NameChars, usr)
  {
    assert FirstTree(usr).nodes[1].name == usr;
    hide AllIn;
  }

  /** The user "a*b" may sign up (frontend/login.h:6-21), but the root line of that user
      does not load: a fresh handler has no root. */
  lemma StarUserHasNoRoot()
    ensures Load(FirstText("a*b")) == Some(Loaded(map[], None, Some(1)))
  {
    var usr := "a*b";
    assert usr[1] == '*';
    RootLineSkipped(usr);
  }

  lemma RootLineSkipped(usr: string)
    requires NoSpaces(usr) && !AllIn(PathChars, usr)
    ensures Load(FirstText(usr)) == Some(Loaded(map[], None, Some(1)))
  {
    var lines := [LatestLine(1)] + [FolderLine(true, "/" + usr, 1, 0)];
    FirstLinesJoined(usr);
    NoSpacesNoNewline(usr);
    LineNoNewline("", "/" + usr, 1, 0, false, true);
    SplitJoined(lines);
    ReadLatest(1);
    RootLineIsOther(usr);
    hide TitleOf, LatestLine, FolderLine, JoinLines, SplitLines, NoNewline, AllIn, FirstText;
    assert lines[1..] == [FolderLine(true, "/" + usr, 1, 0)];
    TwoLinesLoad(lines);
    TextNotEmpty(lines);
  }

  lemma NoSpacesNoNewline(s: string)
    requires NoSpaces(s)
    ensures NoNewline("/" + s)
  {
  }

  lemma TwoLinesLoad(lines: seq<string>)
    requires |lines| == 2 && TitleOf(lines[0]) == Latest(1) && TitleOf(lines[1]) == Other
    ensures ParseLines(lines, NOTHING) == Some(Loaded(map[], None, Some(1)))
  {
    hide TitleOf;
    var st := NOTHING.(latest := Some(1));
    assert lines[1..] == [lines[1]] && [lines[1]][1..] == [];
    assert ParseLines([], st) == Some(st);
    assert ParseLines([lines[1]], st) == ParseLines([], st);
  }

  lemma RootLineIsOther(usr: string)
    requires NoSpaces(usr) && !AllIn(PathChars, usr)
    ensures TitleOf(FolderLine(true, "/" + usr, 1, 0)) == Other
  {
    var line, rest := FolderLine(true, "/" + usr, 1, 0), Spaced("/" + usr, FolderEnd(1, 0));
    hide MatchHere, FullMatch, AllIn, FolderEnd;
    RunFails(PathChars, FOLDER_END, usr, FolderEnd(1, 0));
    assert rest == "/" + Spaced(usr, FolderEnd(1, 0));
    LitFails("/", Run(PathChars, 0, Space(FOLDER_END)), Spaced(usr, FolderEnd(1, 0)));
    WordFails("Root folder:", FOLDER_REST, rest);
    NoFullMatch(ROOT, line);
    assert line[0] == 'R';
    OtherStart("Latest", Space(Word("ID:", Run(Digits, 1, End))), line);
    OtherStart("Folder:", Space(FOLDER_REST), line);
  }

  lemma NoFullMatch(p: Pattern, s: string)
    requires MatchHere(p, s).None?
    ensures FullMatch(p, s).None?
  {
  }
}
