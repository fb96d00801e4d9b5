/** Loading what the printer wrote: a fresh handler rebuilds the same tree
    (frontend/storage.h:694-808). */
module StorageReload {
  import opened Text
  import opened Regex
  import opened StorageTree
  import opened StorageSubtree
  import opened StoragePath
  import opened StorageBreadth
  import opened StorageMetadata

  // ---- Numbers and names that are printed fit the parser ----

  lemma NameIsPathPart(s: string)
    requires AllIn(NameChars, s)
    ensures AllIn(PathChars, s) && '/' !in s && NoNewline(s)
  {
  }

  lemma PathJoined(path: string, name: string)
    requires path == "" || IsPath(path)
    requires AllIn(NameChars, name)
    ensures IsPath(path + "/" + name)
  {
    NameIsPathPart(name);
  }

  lemma {:induction false} PathIsPath(t: Tree, depth: map<nat, nat>, x: nat)
    requires WellFormed(t, depth) && Printable(t) && x in t.nodes
    ensures IsPath(PathOf(t, depth, x))
    decreases depth[x]
  {
    if x == t.root {
      RootName(t, depth);
      PathJoined("", t.nodes[x].name);
      assert "" + "/" + t.nodes[x].name == "/" + t.nodes[x].name;
    } else {
      ParentDepth(t, depth, x);
      hide WellFormed, IsPath, AllIn;
      PathIsPath(t, depth, Parent(t, x));
      PathJoined(PathOf(t, depth, Parent(t, x)), t.nodes[x].name);
    }
  }

  lemma {:induction false} LastPart(a: string, name: string)
    requires '/' !in name && (a == "" || a[|a| - 1] == '/')
    ensures AfterLastSlash(a + name) == name
    decreases |name|
  {
    if name == "" {
      assert a + name == a;
    } else {
      var front := name[..|name| - 1];
      assert (a + name)[..|a + name| - 1] == a + front;
      LastPart(a, front);
    }
  }

  lemma {:induction false} Counted(n: nat) returns (s: set<nat>)
    ensures |s| == n && forall i :: i in s <==> 0 <= i < n
  {
    if n == 0 {
      s := {};
    } else {
      var smaller := Counted(n - 1);
      s := smaller + {n - 1};
    }
  }

  lemma {:induction false} Smaller<T>(a: set<T>, b: set<T>)
    requires a <= b
    ensures |a| <= |b|
  {
    assert b == a + (b - a);
  }

  lemma {:induction false} Distinct(entries: map<string, nat>, keys: set<string>)
    requires keys <= entries.Keys
    requires forall a, b :: a in keys && b in keys && entries[a] == entries[b] ==> a == b
    ensures |set n | n in keys :: entries[n]| == |keys|
    decreases |keys|
  {
    var ids := set n | n in keys :: entries[n];
    if keys != {} {
      var k :| k in keys;
      var others := set n | n in keys - {k} :: entries[n];
      Distinct(entries, keys - {k});
      assert ids == others + {entries[k]};
    }
  }

  /** A directory has no more entries than there are IDs below the latest one. */
  lemma EntriesFit(t: Tree, depth: map<nat, nat>, d: nat)
    requires WellFormed(t, depth) && d in t.nodes
    ensures |t.nodes[d].entries| <= t.latest
  {
    var entries := t.nodes[d].entries;
    At(t, depth, d);
    At(t, depth, t.root);
    var ids := set n | n in entries.Keys :: entries[n];
    Distinct(entries, entries.Keys);
    var all := Counted(t.latest + 1);
    forall y | y in ids ensures y in all - {t.root} {
      At(t, depth, y);
    }
    Smaller(ids, all - {t.root});
  }

  // ---- Linking one entry ----

  /** The nodes reached by linking every entry of the first `i` directories. */
  ghost function Linked(t: Tree, dirs: seq<nat>, i: nat): set<nat>
    requires i <= |dirs|
  {
    set y | y in t.nodes && (y == t.root || (t.nodes[y].parent.Some? && t.nodes[y].parent.value in dirs[..i]))
  }

  lemma NoEntriesYet(t: Tree, kept: set<nat>, y: nat)
    requires y in t.nodes && EntriesOk(t, y) && UpwardClosed(t, kept) && y !in kept
    ensures KeepEntries(t.nodes[y], kept).entries == map[]
  {
  }

  lemma LinkedSelf(t: Tree, depth: map<nat, nat>, kept: set<nat>, y: nat)
    requires WellFormed(t, depth) && UpwardClosed(t, kept) && y in t.nodes && y != t.root && y !in kept
    ensures KeepEntries(t.nodes[y], kept + {y}) == t.nodes[y].(entries := map[])
  {
    ParentDepth(t, depth, y);
    At(t, depth, y);
    NoEntriesYet(t, kept, y);
    var e := KeepEntries(t.nodes[y], kept + {y}).entries;
    forall n | n in t.nodes[y].entries ensures n !in e {
      assert t.nodes[y].entries[n] != y;
      assert n !in KeepEntries(t.nodes[y], kept).entries;
    }
    assert e == map[];
  }

  lemma EntryOfParent(t: Tree, y: nat, x: nat, n: string)
    requires y in t.nodes && x in t.nodes && ParentOk(t, y) && EntriesOk(t, x) && n in t.nodes[x].entries
    ensures t.nodes[x].entries[n] == y <==> x == Parent(t, y) && n == t.nodes[y].name
  {
  }

  lemma LinkedOther(t: Tree, kept: set<nat>, y: nat, x: nat)
    requires y in t.nodes && ParentOk(t, y) && y !in kept && x in t.nodes && EntriesOk(t, x)
    ensures x != Parent(t, y) ==> KeepEntries(t.nodes[x], kept + {y}) == KeepEntries(t.nodes[x], kept)
    ensures x == Parent(t, y) ==>
              KeepEntries(t.nodes[x], kept + {y}) ==
              var d := KeepEntries(t.nodes[x], kept); d.(entries := d.entries[t.nodes[y].name := y])
  {
    var a, b := KeepEntries(t.nodes[x], kept + {y}), KeepEntries(t.nodes[x], kept);
    forall n | n in t.nodes[x].entries
      ensures t.nodes[x].entries[n] == y <==> x == Parent(t, y) && n == t.nodes[y].name
    {
      EntryOfParent(t, y, x, n);
    }
    if x == Parent(t, y) {
      assert t.nodes[x].entries[t.nodes[y].name] == y;
      hide ParentOk, EntriesOk;
      assert a.entries == b.entries[t.nodes[y].name := y];
    } else {
      hide ParentOk, EntriesOk;
      assert a.entries == b.entries;
    }
  }

  lemma LinkedTable(nodes: Table, d: nat, n: string, y: nat, isFile: bool)
    requires d in nodes && y !in nodes
    ensures var u := Link(nodes, d, n, y, isFile);
            && u.Keys == nodes.Keys + {y} && u[y] == Dirent(n, isFile, Some(d), false, map[])
            && u[d] == nodes[d].(entries := nodes[d].entries[n := y])
            && forall x :: x in nodes && x != d ==> u[x] == nodes[x]
  {
  }

  lemma KeptAt(t: Tree, kept: set<nat>)
    ensures Keep(t, kept).nodes.Keys == t.nodes.Keys * kept
    ensures forall x :: x in t.nodes && x in kept ==> Keep(t, kept).nodes[x] == KeepEntries(t.nodes[x], kept)
  {
  }

  ghost predicate NextChild(t: Tree, kept: set<nat>, d: nat, n: string, y: nat) {
    && d in t.nodes && d in kept && y in t.nodes && y != t.root && y !in kept
    && ParentOk(t, y) && Parent(t, y) == d && t.nodes[y].name == n
  }

  lemma LinkedNodeAt(t: Tree, depth: map<nat, nat>, kept: set<nat>, d: nat, n: string, y: nat, x: nat)
    requires WellFormed(t, depth) && UpwardClosed(t, kept) && NextChild(t, kept, d, n, y)
    requires x in t.nodes && (x == y || x in kept)
    ensures d in Keep(t, kept).nodes
    ensures var u := Link(Keep(t, kept).nodes, d, n, y, t.nodes[y].isFile);
            x in u && u[x] == KeepEntries(t.nodes[x], kept + {y})
  {
    KeptAt(t, kept);
    LinkedTable(Keep(t, kept).nodes, d, n, y, t.nodes[y].isFile);
    if x == y {
      LinkedSelf(t, depth, kept, y);
      hide WellFormed, KeepEntries, Keep, Link, UpwardClosed;
    } else {
      At(t, depth, x);
      LinkedOther(t, kept, y, x);
      hide WellFormed, EntriesOk, KeepEntries, Keep, Link, UpwardClosed;
    }
  }

  lemma LinkedKeys(nodes: Table, d: nat, n: string, y: nat, isFile: bool)
    requires d in nodes
    ensures Link(nodes, d, n, y, isFile).Keys == nodes.Keys + {y}
  {
  }

  lemma KeptKeys(t: Tree, kept: set<nat>)
    ensures Keep(t, kept).nodes.Keys == t.nodes.Keys * kept
  {
  }

  lemma SameTables(u: Table, v: Table)
    requires u.Keys == v.Keys && forall x :: x in v ==> u[x] == v[x]
    ensures u == v
  {
  }

  lemma LinkedNodes(t: Tree, depth: map<nat, nat>, kept: set<nat>, d: nat, n: string, y: nat)
    requires WellFormed(t, depth) && UpwardClosed(t, kept) && NextChild(t, kept, d, n, y)
    ensures d in Keep(t, kept).nodes
    ensures Link(Keep(t, kept).nodes, d, n, y, t.nodes[y].isFile) == Keep(t, kept + {y}).nodes
  {
    KeptKeys(t, kept);
    LinkedKeys(Keep(t, kept).nodes, d, n, y, t.nodes[y].isFile);
    KeptKeys(t, kept + {y});
    hide WellFormed, UpwardClosed, Link, Keep, KeepEntries, ParentOk;
    var u, v := Link(Keep(t, kept).nodes, d, n, y, t.nodes[y].isFile), Keep(t, kept + {y}).nodes;
    forall x | x in v ensures u[x] == v[x] {
      LinkedNodeAt(t, depth, kept, d, n, y, x);
      KeptAt(t, kept + {y});
    }
    SameTables(u, v);
  }

  /** Linking an entry adds exactly its node. */
  lemma LinkAddsNode(t: Tree, depth: map<nat, nat>, kept: set<nat>, d: nat, n: string)
    requires WellFormed(t, depth) && UpwardClosed(t, kept) && d in t.nodes && d in kept
    requires n in t.nodes[d].entries && t.nodes[d].entries[n] !in kept
    ensures d in Keep(t, kept).nodes
    ensures var y := t.nodes[d].entries[n];
            && y in t.nodes && UpwardClosed(t, kept + {y})
            && Link(Keep(t, kept).nodes, d, n, y, t.nodes[y].isFile) == Keep(t, kept + {y}).nodes
  {
    At(t, depth, d);
    var y := t.nodes[d].entries[n];
    At(t, depth, y);
    hide WellFormed, EntriesOk, Link, Keep;
    LinkedNodes(t, depth, kept, d, n, y);
  }

  // ---- One section ----

  ghost function Kids(t: Tree, d: nat, names: seq<string>): set<nat>
    requires d in t.nodes && forall n :: n in names ==> n in t.nodes[d].entries
  {
    set n | n in names :: t.nodes[d].entries[n]
  }

  lemma TailOf(names: seq<string>)
    requires names != [] && NoRepeats(names)
    ensures NoRepeats(names[1..]) && names[0] !in names[1..] && names == [names[0]] + names[1..]
  {
    assert forall i :: 0 <= i < |names| - 1 ==> names[1..][i] == names[i + 1];
  }

  lemma FirstKid(t: Tree, depth: map<nat, nat>, d: nat, names: seq<string>)
    requires WellFormed(t, depth) && Printable(t) && d in t.nodes && names != [] && NoRepeats(names)
    requires forall n :: n in names ==> n in t.nodes[d].entries
    ensures NoRepeats(names[1..]) && (forall n :: n in names[1..] ==> n in names)
    ensures var y := t.nodes[d].entries[names[0]];
            && Kids(t, d, names) == {y} + Kids(t, d, names[1..]) && y !in Kids(t, d, names[1..])
            && y <= t.latest && AllIn(NameChars, names[0])
  {
    At(t, depth, d);
    At(t, depth, t.nodes[d].entries[names[0]]);
    TailOf(names);
    hide WellFormed, AllIn, NoRepeats;
    var y := t.nodes[d].entries[names[0]];
    forall n | n in names[1..] ensures t.nodes[d].entries[n] != y {
      assert n in names;
    }
    assert t.nodes[y].name == names[0];
    hide EntriesOk, ParentOk;
    assert Kids(t, d, names) == {y} + Kids(t, d, names[1..]);
  }

  /** The entry lines of a directory link exactly its entries. */
  lemma {:induction false} EntriesParse(t: Tree, depth: map<nat, nat>, kept: set<nat>, d: nat, names: seq<string>,
                                        rest: seq<string>)
    requires WellFormed(t, depth) && Printable(t) && UpwardClosed(t, kept)
    requires d in t.nodes && d in kept && t.latest <= INT_MAX
    requires forall n :: n in names ==> n in t.nodes[d].entries && t.nodes[d].entries[n] in t.nodes
    requires NoRepeats(names) && Kids(t, d, names) !! kept
    ensures d in Keep(t, kept).nodes
    ensures ParseEntries(Keep(t, kept).nodes, d, EntryLines(t, d, names) + rest, |names|)
            == Some(Keep(t, kept + Kids(t, d, names)).nodes)
    decreases |names|
  {
    hide WellFormed, UpwardClosed, NoRepeats, Kids, ParseEntry, Keep, Link, AllIn, EntryLine, Printable;
    KeptKeys(t, kept);
    if names == [] {
      NoKids(t, d);
      assert kept + {} == kept;
    } else {
      FirstKid(t, depth, d, names);
      var n, y := names[0], t.nodes[d].entries[names[0]];
      KidIn(t, d, names, 0);
      NameIsPathPart(n);
      ReadEntry(Keep(t, kept).nodes, d, n, y, t.nodes[y].isFile);
      LinkAddsNode(t, depth, kept, d, n);
      EntriesParse(t, depth, kept + {y}, d, names[1..], rest);
      var lines := EntryLines(t, d, names) + rest;
      assert lines[0] == EntryLine(n, y, t.nodes[y].isFile);
      assert lines[1..] == EntryLines(t, d, names[1..]) + rest;
      assert kept + {y} + Kids(t, d, names[1..]) == kept + Kids(t, d, names);
    }
  }

  lemma NoKids(t: Tree, d: nat)
    requires d in t.nodes
    ensures Kids(t, d, []) == {}
  {
  }

  lemma KidIn(t: Tree, d: nat, names: seq<string>, i: nat)
    requires d in t.nodes && (forall n :: n in names ==> n in t.nodes[d].entries) && i < |names|
    ensures t.nodes[d].entries[names[i]] in Kids(t, d, names)
  {
  }

  // ---- The whole text ----

  lemma LinkedClosed(t: Tree, dirs: seq<nat>, i: nat)
    requires BreadthFirst(t, dirs) && i <= |dirs| && RootOk(t)
    ensures UpwardClosed(t, Linked(t, dirs, i))
  {
    var kept := Linked(t, dirs, i);
    forall y | y in kept && t.nodes[y].parent.Some? && y != t.root ensures t.nodes[y].parent.value in kept {
      var j :| 0 <= j < i && dirs[j] == t.nodes[y].parent.value;
      DirLinked(t, dirs, j, i);
    }
  }

  lemma DirLinked(t: Tree, dirs: seq<nat>, j: nat, i: nat)
    requires BreadthFirst(t, dirs) && j <= i <= |dirs| && j < |dirs| && t.root in t.nodes
    ensures dirs[j] in Linked(t, dirs, i)
  {
    hide NoRepeats;
    if j > 0 {
      assert ParentBefore(t, None, dirs, |dirs|, j);
      var m :| 0 <= m < j && dirs[m] == t.nodes[dirs[j]].parent.value;
      assert dirs[..i][m] == dirs[m];
    }
  }

  ghost predicate IsChild(t: Tree, d: nat, y: nat) {
    y in t.nodes && y != t.root && t.nodes[y].parent == Some(d)
  }

  lemma KidsAre(t: Tree, depth: map<nat, nat>, d: nat, names: seq<string>)
    requires WellFormed(t, depth) && d in t.nodes && IsListing(t.nodes[d].entries, names)
    ensures forall y :: y in Kids(t, d, names) <==> IsChild(t, d, y)
  {
    At(t, depth, d);
    forall y | IsChild(t, d, y) ensures y in Kids(t, d, names) {
      At(t, depth, y);
      assert t.nodes[y].name in names;
    }
    hide WellFormed;
  }

  lemma LinkedGrows(t: Tree, depth: map<nat, nat>, dirs: seq<nat>, i: nat)
    requires WellFormed(t, depth) && i < |dirs| && NoRepeats(dirs)
    ensures forall y :: y in Linked(t, dirs, i + 1) <==> y in Linked(t, dirs, i) || IsChild(t, dirs[i], y)
    ensures forall y :: y in Linked(t, dirs, i) ==> !IsChild(t, dirs[i], y)
  {
    RootName(t, depth);
    hide WellFormed;
    assert dirs[..i + 1] == dirs[..i] + [dirs[i]];
    assert dirs[i] !in dirs[..i];
  }

  lemma LinkedStep(t: Tree, depth: map<nat, nat>, order: Order, dirs: seq<nat>, i: nat)
    requires WellFormed(t, depth) && Lists(t, order) && BreadthFirst(t, dirs) && i < |dirs|
    ensures var d := dirs[i];
            && d in t.nodes && IsListing(t.nodes[d].entries, order[d])
            && Kids(t, d, order[d]) !! Linked(t, dirs, i)
            && Linked(t, dirs, i + 1) == Linked(t, dirs, i) + Kids(t, d, order[d])
  {
    assert NoRepeats(dirs) && IsDir(t, dirs[i]);
    assert IsListing(t.nodes[dirs[i]].entries, order[dirs[i]]);
    hide WellFormed, Lists, IsListing, NoRepeats, Frontier;
    KidsAre(t, depth, dirs[i], order[dirs[i]]);
    LinkedGrows(t, depth, dirs, i);
    hide Linked, Kids, IsChild, IsDir;
  }

  lemma OpenRoot(t: Tree, depth: map<nat, nat>)
    requires WellFormed(t, depth) && Printable(t)
    ensures OpenFolder(map[], true, PathOf(t, depth, t.root), t.root) == Keep(t, {t.root}).nodes
  {
    At(t, depth, t.root);
    var d := t.nodes[t.root];
    assert KeepEntries(d, {t.root}).entries == map[];
    NameIsPathPart(d.name);
    LastPart("/", d.name);
    var u, v := OpenFolder(map[], true, PathOf(t, depth, t.root), t.root), Keep(t, {t.root}).nodes;
    hide EntriesOk, WellFormed, AfterLastSlash;
    assert u == v;
  }

  /** What the parser holds after `i` sections. */
  ghost function After(t: Tree, dirs: seq<nat>, i: nat): Loaded
    requires i <= |dirs|
  {
    if i == 0 then NOTHING.(latest := Some(t.latest))
    else Loaded(Keep(t, Linked(t, dirs, i)).nodes, Some(t.root), Some(t.latest))
  }

  lemma RootIsFirst(t: Tree, dirs: seq<nat>, i: nat)
    requires BreadthFirst(t, dirs) && i < |dirs|
    ensures dirs[i] in t.nodes && (dirs[i] == t.root) == (i == 0)
  {
    hide ParentBefore, PushedWithParent;
  }

  lemma OpenKnown(t: Tree, kept: set<nat>, path: string, d: nat)
    requires d in t.nodes && d in kept
    ensures OpenFolder(Keep(t, kept).nodes, false, path, d) == Keep(t, kept).nodes
  {
    KeptKeys(t, kept);
    hide Keep;
  }

  lemma Opened(t: Tree, depth: map<nat, nat>, dirs: seq<nat>, i: nat)
    requires WellFormed(t, depth) && Printable(t) && BreadthFirst(t, dirs) && i < |dirs|
    ensures dirs[i] in Linked(t, dirs, i) && UpwardClosed(t, Linked(t, dirs, i)) && dirs[i] in t.nodes
    ensures (dirs[i] == t.root) == (i == 0)
    ensures OpenFolder(After(t, dirs, i).nodes, i == 0, PathOf(t, depth, dirs[i]), dirs[i])
            == Keep(t, Linked(t, dirs, i)).nodes
  {
    RootName(t, depth);
    hide WellFormed, PathOf, UpwardClosed, Frontier, OpenFolder;
    RootIsFirst(t, dirs, i);
    DirLinked(t, dirs, i, i);
    LinkedClosed(t, dirs, i);
    if i == 0 {
      OpenRoot(t, depth);
      assert Linked(t, dirs, 0) == {t.root};
    } else {
      OpenKnown(t, Linked(t, dirs, i), PathOf(t, depth, dirs[i]), dirs[i]);
    }
  }

  lemma Drop2(a: seq<string>, b: seq<string>, n: nat)
    requires |a| == n
    ensures (a + b)[if n < |a + b| then n else |a + b|..] == b
  {
  }

  /** A folder line and its entries, then the rest of the lines. */
  lemma ParseSection(st: Loaded, isRoot: bool, path: string, id: nat, entries: seq<string>, rest: seq<string>,
                     nodes: Table)
    requires IsPath(path) && id <= INT_MAX && |entries| <= INT_MAX
    requires ParseEntries(OpenFolder(st.nodes, isRoot, path, id), id, entries + rest, |entries|) == Some(nodes)
    ensures ParseLines([FolderLine(isRoot, path, id, |entries|)] + entries + rest, st)
            == ParseLines(rest, Loaded(nodes, if isRoot then Some(id) else st.root, st.latest))
  {
    hide ParseEntries, OpenFolder, IsPath, TitleOf, FolderLine;
    ReadFolder(isRoot, path, id, |entries|);
    var lines := [FolderLine(isRoot, path, id, |entries|)] + entries + rest;
    assert lines[1..] == entries + rest;
    Drop2(entries, rest, |entries|);
  }

  lemma SectionParses(t: Tree, depth: map<nat, nat>, order: Order, dirs: seq<nat>, i: nat, rest: seq<string>)
    requires WellFormed(t, depth) && Printable(t) && Lists(t, order) && BreadthFirst(t, dirs)
    requires i < |dirs| && t.latest <= INT_MAX
    ensures dirs[i] in t.nodes
    ensures ParseLines(SectionLines(t, depth, order, dirs[i]) + rest, After(t, dirs, i))
            == ParseLines(rest, After(t, dirs, i + 1))
  {
    Opened(t, depth, dirs, i);
    LinkedStep(t, depth, order, dirs, i);
    var d, kept := dirs[i], Linked(t, dirs, i);
    At(t, depth, d);
    ListedAreNodes(t, depth, order, d);
    var entries := EntryLines(t, d, order[d]);
    assert |entries| == |t.nodes[d].entries|;
    EntriesFit(t, depth, d);
    PathIsPath(t, depth, d);
    assert NoRepeats(order[d]);
    hide WellFormed, Lists, Frontier, NoRepeats, Kids, ParseEntries, OpenFolder, PathOf, IsPath, EntryLines, EntriesOk,
      Keep, UpwardClosed, Linked, ParseLines, FolderLine;
    EntriesParse(t, depth, kept, d, order[d], rest);
    ParseSection(After(t, dirs, i), i == 0, PathOf(t, depth, d), d, entries, rest,
                 Keep(t, Linked(t, dirs, i + 1)).nodes);
  }

  lemma {:induction false} SectionsParse(t: Tree, depth: map<nat, nat>, order: Order, dirs: seq<nat>, i: nat)
    requires WellFormed(t, depth) && Printable(t) && Lists(t, order) && BreadthFirst(t, dirs)
    requires i <= |dirs| && t.latest <= INT_MAX
    ensures forall j :: 0 <= j < |dirs| ==> dirs[j] in t.nodes
    ensures ParseLines(SectionsFrom(t, depth, order, dirs, i), After(t, dirs, i)) == Some(After(t, dirs, |dirs|))
    decreases |dirs| - i
  {
    hide WellFormed, Lists, NoRepeats, ParentBefore, PushedWithParent, SectionLines;
    if i < |dirs| {
      hide ParseLines, After;
      SectionParses(t, depth, order, dirs, i, SectionsFrom(t, depth, order, dirs, i + 1));
      SectionsParse(t, depth, order, dirs, i + 1);
    }
  }

  /** In the end every node is linked. */
  lemma AllLinked(t: Tree, depth: map<nat, nat>, dirs: seq<nat>)
    requires WellFormed(t, depth) && BreadthFirst(t, dirs)
    ensures dirs != [] && After(t, dirs, |dirs|) == Loaded(t.nodes, Some(t.root), Some(t.latest))
  {
    hide NoRepeats, ParentBefore, PushedWithParent;
    forall y | y in t.nodes ensures y in Linked(t, dirs, |dirs|) {
      At(t, depth, y);
      if y != t.root {
        Reached(t, depth, None, dirs, Parent(t, y));
        assert dirs[..|dirs|] == dirs;
      }
    }
    hide WellFormed;
    assert Linked(t, dirs, |dirs|) == t.nodes.Keys;
    KeepAll(t, depth);
  }

  lemma PrintedReloads(t: Tree, depth: map<nat, nat>, order: Order)
    requires WellFormed(t, depth) && Printable(t) && Lists(t, order) && t.latest <= INT_MAX
    ensures Load(Metadata(t, depth, order)) == Some(Loaded(t.nodes, Some(t.root), Some(t.latest)))
  {
    hide WellFormed, Printable, Lists, Frontier, SectionsFrom, After, TitleOf, LatestLine, JoinLines, SplitLines,
      NoNewline,
      ParseLines;
    var dirs := Breadth(t, depth, None, order);
    var lines := MetadataLines(t, depth, order, dirs);
    MetadataNoNewline(t, depth, order, dirs);
    SplitJoined(lines);
    ReadLatest(t.latest);
    SectionsParse(t, depth, order, dirs, 0);
    AllLinked(t, depth, dirs);
    NothingAfter(t, dirs);
    assert lines[1..] == SectionsFrom(t, depth, order, dirs, 0);
    StartParse(t, lines);
    TextNotEmpty(lines);
  }

  lemma NothingAfter(t: Tree, dirs: seq<nat>)
    ensures After(t, dirs, 0) == NOTHING.(latest := Some(t.latest))
  {
  }

  // ---- What the parser can load at all ----

  ghost predicate NamesParsed(nodes: Table) {
    forall x :: x in nodes ==> AllIn(PathChars, nodes[x].name)
  }

  lemma {:induction false} LastPartParsed(path: string)
    requires AllIn(PathChars, path)
    ensures AllIn(PathChars, AfterLastSlash(path))
    decreases |path|
  {
    if path != "" && path[|path| - 1] != '/' {
      LastPartParsed(path[..|path| - 1]);
    }
  }

  lemma EntryNameParsed(line: string, g: seq<string>)
    requires FullMatch(CONTENT, line) == Some(g)
    ensures g != [] && AllIn(PathChars, g[0])
  {
    assert Separated(CONTENT);
    hide MatchHere, FullMatch;
    FullMatchIff(CONTENT, g, line);
  }

  lemma FolderNameParsed(line: string)
    requires TitleOf(line).Folder?
    ensures AllIn(PathChars, TitleOf(line).path)
  {
    FoldersSeparated();
    hide MatchHere, FullMatch, Separated;
    var word := if FullMatch(ROOT, line).Some? then "Root folder:" else "Folder:";
    var p := Word(word, FOLDER_REST);
    var g := FullMatch(p, line).value;
    FullMatchIff(p, g, line);
    FolderGroup(word, g, line);
  }

  lemma FolderGroup(word: string, g: seq<string>, line: string)
    requires Denotes(Word(word, FOLDER_REST), g, line)
    ensures g != [] && AllIn(PathChars, "/" + g[0])
  {
    var text := line[|word|..][1..];
    assert Denotes(FOLDER_REST, g, text);
    var run := Run(PathChars, 0, Space(FOLDER_END));
    assert FOLDER_REST == Lit("/", run);
    assert Denotes(run, g, text[1..]);
    assert AllIn(PathChars, g[0]);
  }

  lemma {:induction false} EntriesKeepParsed(nodes: Table, dir: nat, lines: seq<string>, items: nat)
    requires dir in nodes && NamesParsed(nodes)
    ensures ParseEntries(nodes, dir, lines, items).Some? ==> NamesParsed(ParseEntries(nodes, dir, lines, items).value)
    decreases items
  {
    hide AllIn, FullMatch;
    if items > 0 && lines != [] {
      if FullMatch(CONTENT, lines[0]).Some? {
        EntryNameParsed(lines[0], FullMatch(CONTENT, lines[0]).value);
      }
      if ParseEntry(nodes, dir, lines[0]).Some? {
        EntriesKeepParsed(ParseEntry(nodes, dir, lines[0]).value, dir, lines[1..], items - 1);
      }
    }
  }

  lemma OpenKeepsParsed(nodes: Table, isRoot: bool, path: string, id: nat)
    requires NamesParsed(nodes) && AllIn(PathChars, path)
    ensures NamesParsed(OpenFolder(nodes, isRoot, path, id))
  {
    LastPartParsed(path);
    hide AllIn, AfterLastSlash;
  }

  /** Every name the parser puts into the table is made of the format's characters. */
  lemma {:induction false} LinesKeepParsed(lines: seq<string>, st: Loaded)
    requires NamesParsed(st.nodes)
    ensures ParseLines(lines, st).Some? ==> NamesParsed(ParseLines(lines, st).value.nodes)
    decreases |lines|
  {
    hide NamesParsed, TitleOf, ParseEntries, OpenFolder, AllIn;
    if lines != [] {
      var rest := lines[1..];
      match TitleOf(lines[0])
      case Other => LinesKeepParsed(rest, st);
      case Throws =>
      case Latest(id) => LinesKeepParsed(rest, st.(latest := Some(id)));
      case Folder(isRoot, path, id, items) =>
        FolderNameParsed(lines[0]);
        OpenKeepsParsed(st.nodes, isRoot, path, id);
        var nodes := OpenFolder(st.nodes, isRoot, path, id);
        EntriesKeepParsed(nodes, id, rest, items);
        if ParseEntries(nodes, id, rest, items).Some? {
          LinesKeepParsed(rest[if items < |rest| then items else |rest|..],
                          Loaded(ParseEntries(nodes, id, rest, items).value,
                                 if isRoot then Some(id) else st.root, st.latest));
        }
    }
  }

  lemma LoadedIsParsed(text: string)
    requires Load(text).Some?
    ensures NamesParsed(Load(text).value.nodes)
  {
    hide ParseLines;
    LinesKeepParsed(SplitLines(text), NOTHING);
  }

  lemma ParsedIsPrintable(t: Tree, depth: map<nat, nat>)
    requires WellFormed(t, depth) && NamesParsed(t.nodes)
    ensures Printable(t)
  {
    forall x | x in t.nodes ensures AllIn(NameChars, t.nodes[x].name) {
      At(t, depth, x);
      hide WellFormed;
      assert '/' !in t.nodes[x].name && AllIn(PathChars, t.nodes[x].name);
    }
  }

  /** Round trip: for every tree and every iteration order of its entries, a fresh handler
      that loads the printed text holds the same nodes, root and latest ID if and only if
      all names are made of the format's characters. */
  lemma MetadataRoundTrip(t: Tree, depth: map<nat, nat>, order: Order)
    requires WellFormed(t, depth) && Lists(t, order) && t.latest <= INT_MAX
    ensures Load(Metadata(t, depth, order)) == Some(Loaded(t.nodes, Some(t.root), Some(t.latest))) <==> Printable(t)
  {
    hide WellFormed, Printable, Lists, Load, Metadata, NamesParsed;
    if Printable(t) {
      PrintedReloads(t, depth, order);
    } else if Load(Metadata(t, depth, order)) == Some(Loaded(t.nodes, Some(t.root), Some(t.latest))) {
      LoadedIsParsed(Metadata(t, depth, order));
      ParsedIsPrintable(t, depth);
    }
  }

  lemma StartParse(t: Tree, lines: seq<string>)
    requires lines != [] && TitleOf(lines[0]) == Latest(t.latest)
    ensures ParseLines(lines, NOTHING) == ParseLines(lines[1..], NOTHING.(latest := Some(t.latest)))
  {
  }

  lemma TextNotEmpty(lines: seq<string>)
    requires lines != []
    ensures JoinLines(lines) != ""
  {
  }

  lemma LineNoNewline(name: string, path: string, id: nat, items: nat, isFile: bool, isRoot: bool)
    requires NoNewline(name) && NoNewline(path)
    ensures NoNewline(EntryLine(name, id, isFile)) && NoNewline(FolderLine(isRoot, path, id, items))
    ensures NoNewline(LatestLine(id))
  {
    DigitsHaveNoNewline(Dec(id));
    DigitsHaveNoNewline(Dec(items));
    hide Dec;
  }

  lemma {:induction false} EntryLinesNoNewline(t: Tree, depth: map<nat, nat>, d: nat, names: seq<string>)
    requires WellFormed(t, depth) && Printable(t) && d in t.nodes
    requires forall n :: n in names ==> n in t.nodes[d].entries && t.nodes[d].entries[n] in t.nodes
    ensures forall l :: l in EntryLines(t, d, names) ==> NoNewline(l)
    decreases |names|
  {
    if names != [] {
      var y := t.nodes[d].entries[names[0]];
      EntryLinesNoNewline(t, depth, d, names[1..]);
      At(t, depth, d);
      At(t, depth, y);
      NameIsPathPart(names[0]);
      LineNoNewline(names[0], "", y, 0, t.nodes[y].isFile, false);
      hide WellFormed, NoNewline, AllIn, EntryLine;
    }
  }

  lemma PathNoNewline(path: string)
    requires IsPath(path)
    ensures NoNewline(path)
  {
  }

  lemma SectionNoNewline(t: Tree, depth: map<nat, nat>, order: Order, d: nat)
    requires WellFormed(t, depth) && Printable(t) && Lists(t, order) && d in t.nodes
    ensures forall l :: l in SectionLines(t, depth, order, d) ==> NoNewline(l)
  {
    hide WellFormed, NoNewline, FolderLine, EntryLines, PathOf, IsPath, IsListing;
    ListedAreNodes(t, depth, order, d);
    PathIsPath(t, depth, d);
    EntryLinesNoNewline(t, depth, d, order[d]);
    PathNoNewline(PathOf(t, depth, d));
    LineNoNewline(PathOf(t, depth, d), PathOf(t, depth, d), d, |t.nodes[d].entries|, false, d == t.root);
  }

  lemma {:induction false} SectionsNoNewline(t: Tree, depth: map<nat, nat>, order: Order, dirs: seq<nat>, i: nat)
    requires WellFormed(t, depth) && Printable(t) && Lists(t, order) && i <= |dirs|
    requires forall j :: 0 <= j < |dirs| ==> dirs[j] in t.nodes
    ensures forall l :: l in SectionsFrom(t, depth, order, dirs, i) ==> NoNewline(l)
    decreases |dirs| - i
  {
    hide WellFormed, Lists, NoNewline, SectionLines;
    if i < |dirs| {
      SectionNoNewline(t, depth, order, dirs[i]);
      SectionsNoNewline(t, depth, order, dirs, i + 1);
    }
  }

  lemma ConsNoNewline(first: string, rest: seq<string>)
    requires NoNewline(first) && forall l :: l in rest ==> NoNewline(l)
    ensures forall i :: 0 <= i < |[first] + rest| ==> NoNewline(([first] + rest)[i])
  {
    hide NoNewline;
    forall i | 0 <= i < |[first] + rest| ensures NoNewline(([first] + rest)[i]) {
      assert i > 0 ==> ([first] + rest)[i] == rest[i - 1];
    }
  }

  lemma MetadataNoNewline(t: Tree, depth: map<nat, nat>, order: Order, dirs: seq<nat>)
    requires WellFormed(t, depth) && Printable(t) && Lists(t, order) && BreadthFirst(t, dirs)
    ensures var lines := MetadataLines(t, depth, order, dirs);
            forall i :: 0 <= i < |lines| ==> NoNewline(lines[i])
  {
    LineNoNewline("", "", t.latest, 0, false, false);
    assert forall j :: 0 <= j < |dirs| ==> IsDir(t, dirs[j]);
    hide WellFormed, Lists, NoNewline, LatestLine, Frontier, SectionsFrom;
    SectionsNoNewline(t, depth, order, dirs, 0);
    ConsNoNewline(LatestLine(t.latest), SectionsFrom(t, depth, order, dirs, 0));
  }
}
