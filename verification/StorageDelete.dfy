/** Deleting a directory entry by entry removes exactly its subtree
    (frontend/storage.h:501-577). */
module StorageDelete {
  import opened Text
  import opened StorageTree
  import opened StorageSubtree
  import opened StoragePath
  import opened StorageBreadth

  ghost predicate EntriesOf(t: Tree, x: nat, names: seq<string>) {
    x in t.nodes && IsListing(t.nodes[x].entries, names)
  }

  function Child(t: Tree, x: nat, names: seq<string>, i: nat): nat
    requires x in t.nodes && i < |names| && names[i] in t.nodes[x].entries
  {
    t.nodes[x].entries[names[i]]
  }

  lemma ChildOk(t: Tree, depth: map<nat, nat>, x: nat, names: seq<string>, i: nat)
    requires WellFormed(t, depth) && EntriesOf(t, x, names) && i < |names|
    ensures names[i] in t.nodes[x].entries
    ensures var c := Child(t, x, names, i);
            && c in t.nodes && c != t.root && t.nodes[c].parent == Some(x) && t.nodes[c].name == names[i]
            && x in depth && c in depth && depth[x] < depth[c] && Inside(t, depth, c, x)
  {
    assert names[i] in names;
    At(t, depth, x);
    var c := Child(t, x, names, i);
    ParentDepth(t, depth, c);
    assert Inside(t, depth, x, x);
  }

  /** What is gone after the first `i` entries of `x` were deleted. */
  ghost function Gone(t: Tree, depth: map<nat, nat>, x: nat, names: seq<string>, i: nat): set<nat>
    requires WellFormed(t, depth) && EntriesOf(t, x, names) && i <= |names|
    decreases i
  {
    if i == 0 then {}
    else
      ChildOk(t, depth, x, names, i - 1);
      Gone(t, depth, x, names, i - 1) + Subtree(t, depth, Child(t, x, names, i - 1))
  }

  lemma {:induction false} InGone(t: Tree, depth: map<nat, nat>, x: nat, names: seq<string>, i: nat, y: nat)
    returns (j: nat)
    requires WellFormed(t, depth) && EntriesOf(t, x, names) && i <= |names| && y in Gone(t, depth, x, names, i)
    ensures j < i && names[j] in t.nodes[x].entries
    ensures y in t.nodes && Inside(t, depth, y, Child(t, x, names, j))
    decreases i
  {
    hide WellFormed, Inside, IsListing;
    ChildOk(t, depth, x, names, i - 1);
    if y in Subtree(t, depth, Child(t, x, names, i - 1)) {
      j := i - 1;
    } else {
      j := InGone(t, depth, x, names, i - 1, y);
    }
  }

  lemma {:induction false} GoneHas(t: Tree, depth: map<nat, nat>, x: nat, names: seq<string>, i: nat, j: nat, y: nat)
    requires WellFormed(t, depth) && EntriesOf(t, x, names) && j < i <= |names| && names[j] in t.nodes[x].entries
    requires y in t.nodes && Inside(t, depth, y, Child(t, x, names, j))
    ensures y in Gone(t, depth, x, names, i)
    decreases i
  {
    hide WellFormed, Inside, IsListing;
    ChildOk(t, depth, x, names, i - 1);
    if j < i - 1 {
      GoneHas(t, depth, x, names, i - 1, j, y);
    }
  }

  lemma InsideOfRoot(t: Tree, depth: map<nat, nat>, c: nat)
    requires WellFormed(t, depth) && t.root in t.nodes && Inside(t, depth, t.root, c)
    ensures c == t.root
  {
  }

  lemma RootStays(t: Tree, depth: map<nat, nat>, x: nat, names: seq<string>, i: nat)
    requires WellFormed(t, depth) && EntriesOf(t, x, names) && i <= |names|
    ensures t.root !in Gone(t, depth, x, names, i)
  {
    hide WellFormed, Inside, IsListing, Gone;
    if t.root in Gone(t, depth, x, names, i) {
      var j := InGone(t, depth, x, names, i, t.root);
      var c := Child(t, x, names, j);
      InsideOfRoot(t, depth, c);
      ChildOk(t, depth, x, names, j);
    }
  }

  lemma InsideDown(t: Tree, depth: map<nat, nat>, y: nat, c: nat)
    requires WellFormed(t, depth) && y in t.nodes && y != t.root
    ensures ParentOk(t, y) && (Inside(t, depth, Parent(t, y), c) ==> Inside(t, depth, y, c))
  {
    ParentDepth(t, depth, y);
  }

  lemma RestIsClosed(t: Tree, depth: map<nat, nat>, x: nat, names: seq<string>, i: nat)
    requires WellFormed(t, depth) && EntriesOf(t, x, names) && i <= |names|
    ensures UpwardClosed(t, t.nodes.Keys - Gone(t, depth, x, names, i))
  {
    var gone := Gone(t, depth, x, names, i);
    RootName(t, depth);
    hide WellFormed, Inside, IsListing, Gone;
    RootStays(t, depth, x, names, i);
    forall y | y in t.nodes && y !in gone && y != t.root
      ensures t.nodes[y].parent.Some? && t.nodes[y].parent.value in t.nodes.Keys - gone
    {
      ParentStays(t, depth, x, names, i, y);
    }
  }

  lemma ParentStays(t: Tree, depth: map<nat, nat>, x: nat, names: seq<string>, i: nat, y: nat)
    requires WellFormed(t, depth) && EntriesOf(t, x, names) && i <= |names|
    requires y in t.nodes && y !in Gone(t, depth, x, names, i) && y != t.root
    ensures t.nodes[y].parent.Some? && t.nodes[y].parent.value in t.nodes.Keys - Gone(t, depth, x, names, i)
  {
    ParentDepth(t, depth, y);
    hide WellFormed, Inside, IsListing, Gone;
    var p := Parent(t, y);
    if p in Gone(t, depth, x, names, i) {
      var j := InGone(t, depth, x, names, i, p);
      InsideDown(t, depth, y, Child(t, x, names, j));
      GoneHas(t, depth, x, names, i, j, y);
    }
  }

  /** The tree after the first `i` entries of `x` were deleted. */
  ghost function Rest(t: Tree, depth: map<nat, nat>, x: nat, names: seq<string>, i: nat): (r: Tree)
    requires WellFormed(t, depth) && EntriesOf(t, x, names) && i <= |names|
    ensures WellFormed(r, depth)
  {
    RestIsClosed(t, depth, x, names, i);
    KeepIsTree(t, depth, t.nodes.Keys - Gone(t, depth, x, names, i));
    Keep(t, t.nodes.Keys - Gone(t, depth, x, names, i))
  }

  lemma ChildStays(t: Tree, depth: map<nat, nat>, x: nat, names: seq<string>, i: nat, y: nat)
    requires WellFormed(t, depth) && EntriesOf(t, x, names) && i < |names| && names[i] in t.nodes[x].entries
    requires y in t.nodes && Inside(t, depth, y, Child(t, x, names, i))
    ensures y !in Gone(t, depth, x, names, i)
  {
    ChildOk(t, depth, x, names, i);
    if y in Gone(t, depth, x, names, i) {
      var j := InGone(t, depth, x, names, i, y);
      ChildOk(t, depth, x, names, j);
      hide WellFormed, Inside, Gone;
      SiblingsApart(t, depth, y, Child(t, x, names, i), Child(t, x, names, j));
    }
  }

  lemma SelfInside(t: Tree, depth: map<nat, nat>, x: nat)
    requires WellFormed(t, depth) && x in t.nodes
    ensures Inside(t, depth, x, x)
  {
  }

  lemma ParentOfEntriesStays(t: Tree, depth: map<nat, nat>, x: nat, names: seq<string>, i: nat)
    requires WellFormed(t, depth) && EntriesOf(t, x, names) && i <= |names|
    ensures x !in Gone(t, depth, x, names, i)
  {
    if x in Gone(t, depth, x, names, i) {
      var j := InGone(t, depth, x, names, i, x);
      ChildOk(t, depth, x, names, j);
      hide WellFormed, Inside, Gone;
      InsideDeeper(t, depth, x, Child(t, x, names, j));
    }
  }

  lemma KeepInsideKept(t: Tree, kept: set<nat>, gone: set<nat>)
    requires kept <= t.nodes.Keys
    ensures Keep(t, kept).nodes.Keys == kept
    ensures Keep(Keep(t, kept), kept - gone) == Keep(t, kept - gone)
  {
    KeepTwice(t, kept, kept - gone);
    assert kept * (kept - gone) == kept - gone;
  }

  lemma SameSubtree(t: Tree, depth: map<nat, nat>, x: nat, names: seq<string>, i: nat)
    requires WellFormed(t, depth) && EntriesOf(t, x, names) && i < |names| && names[i] in t.nodes[x].entries
    ensures var c, u := Child(t, x, names, i), Rest(t, depth, x, names, i);
            Subtree(u, depth, c) == Subtree(t, depth, c)
  {
    var c, u, gone := Child(t, x, names, i), Rest(t, depth, x, names, i), Gone(t, depth, x, names, i);
    KeepInsideKept(t, t.nodes.Keys - gone, {});
    hide WellFormed, Inside, Gone, Keep, IsListing;
    forall y ensures y in Subtree(u, depth, c) <==> y in Subtree(t, depth, c) {
      if y in u.nodes {
        KeptInside(t, depth, t.nodes.Keys - gone, y, c);
      } else if y in t.nodes && Inside(t, depth, y, c) {
        ChildStays(t, depth, x, names, i, y);
      }
    }
  }

  lemma RestIs(t: Tree, depth: map<nat, nat>, x: nat, names: seq<string>, i: nat)
    requires WellFormed(t, depth) && EntriesOf(t, x, names) && i <= |names|
    ensures Rest(t, depth, x, names, i) == Keep(t, t.nodes.Keys - Gone(t, depth, x, names, i))
    ensures Rest(t, depth, x, names, i).nodes.Keys == t.nodes.Keys - Gone(t, depth, x, names, i)
    ensures Rest(t, depth, x, names, i).root == t.root
  {
    hide WellFormed, Gone, IsListing;
  }

  lemma GoneNext(t: Tree, depth: map<nat, nat>, x: nat, names: seq<string>, i: nat)
    requires WellFormed(t, depth) && EntriesOf(t, x, names) && i < |names| && names[i] in t.nodes[x].entries
    ensures Gone(t, depth, x, names, i + 1) == Gone(t, depth, x, names, i) + Subtree(t, depth, Child(t, x, names, i))
  {
    hide WellFormed, Subtree, IsListing;
  }

  lemma WithoutIs(u: Tree, depth: map<nat, nat>, c: nat, rest: set<nat>)
    requires WellFormed(u, depth) && rest == u.nodes.Keys - Subtree(u, depth, c)
    ensures Without(u, depth, c) == Keep(u, rest)
  {
    hide WellFormed, Subtree, Keep;
  }

  lemma Minus(a: set<nat>, b: set<nat>, c: set<nat>)
    ensures a - b - c == a - (b + c)
  {
  }

  /** Deleting the next entry's subtree from what is left. */
  lemma DeleteNext(t: Tree, depth: map<nat, nat>, x: nat, names: seq<string>, i: nat)
    requires WellFormed(t, depth) && EntriesOf(t, x, names) && i < |names|
    ensures names[i] in t.nodes[x].entries
    ensures var c, u := Child(t, x, names, i), Rest(t, depth, x, names, i);
            && c in u.nodes && c != u.root && Subtree(u, depth, c) == Subtree(t, depth, c)
            && Without(u, depth, c) == Rest(t, depth, x, names, i + 1)
  {
    hide WellFormed, Inside, Keep, IsListing, Subtree, Rest, Gone, Without;
    ChildOk(t, depth, x, names, i);
    var c, u, gone := Child(t, x, names, i), Rest(t, depth, x, names, i), Gone(t, depth, x, names, i);
    SameSubtree(t, depth, x, names, i);
    SelfInside(t, depth, c);
    ChildStays(t, depth, x, names, i, c);
    RestIs(t, depth, x, names, i);
    RestIs(t, depth, x, names, i + 1);
    GoneNext(t, depth, x, names, i);
    KeepInsideKept(t, t.nodes.Keys - gone, Subtree(t, depth, c));
    WithoutIs(u, depth, c, t.nodes.Keys - gone - Subtree(t, depth, c));
    Minus(t.nodes.Keys, gone, Subtree(t, depth, c));
  }

  lemma KeepParts(t: Tree, kept: set<nat>)
    ensures Keep(t, kept).root == t.root && Keep(t, kept).latest == t.latest
  {
  }

  lemma GoneInside(t: Tree, depth: map<nat, nat>, x: nat, names: seq<string>, y: nat)
    requires WellFormed(t, depth) && EntriesOf(t, x, names) && y in Gone(t, depth, x, names, |names|)
    ensures y in t.nodes && Inside(t, depth, y, x)
  {
    var j := InGone(t, depth, x, names, |names|, y);
    ChildOk(t, depth, x, names, j);
    hide WellFormed, Inside;
    InsideUp(t, depth, y, Child(t, x, names, j));
  }

  lemma InsideGone(t: Tree, depth: map<nat, nat>, x: nat, names: seq<string>, y: nat)
    requires WellFormed(t, depth) && EntriesOf(t, x, names)
    requires y in t.nodes && Inside(t, depth, y, x) && y != x
    ensures y in Gone(t, depth, x, names, |names|)
  {
    var n := InsideEntry(t, depth, y, x);
    assert n in names;
    var j :| 0 <= j < |names| && names[j] == n;
    hide WellFormed, Inside, Gone;
    GoneHas(t, depth, x, names, |names|, j, y);
  }

  /** All entries deleted: only `x` is left of its subtree. */
  lemma GoneInTheEnd(t: Tree, depth: map<nat, nat>, x: nat, names: seq<string>)
    requires WellFormed(t, depth) && EntriesOf(t, x, names)
    ensures Gone(t, depth, x, names, |names|) == Subtree(t, depth, x) - {x}
  {
    hide WellFormed, Inside, Gone, IsListing;
    var gone := Gone(t, depth, x, names, |names|);
    ParentOfEntriesStays(t, depth, x, names, |names|);
    forall y ensures y in gone <==> y in Subtree(t, depth, x) && y != x {
      if y in gone {
        GoneInside(t, depth, x, names, y);
      } else if y in t.nodes && Inside(t, depth, y, x) && y != x {
        InsideGone(t, depth, x, names, y);
      }
    }
  }

  /** Erasing `x` itself completes the deletion of its subtree. */
  lemma DeleteLast(t: Tree, depth: map<nat, nat>, x: nat, names: seq<string>)
    requires WellFormed(t, depth) && EntriesOf(t, x, names) && x != t.root
    ensures var u := Rest(t, depth, x, names, |names|);
            && x in u.nodes && ParentOk(u, x) && u.nodes[x].isFile == t.nodes[x].isFile
            && u.nodes[x].parent == t.nodes[x].parent && u.nodes[x].name == t.nodes[x].name
            && Drop(u, x) == Without(t, depth, x)
  {
    var u, gone := Rest(t, depth, x, names, |names|), Gone(t, depth, x, names, |names|);
    GoneInTheEnd(t, depth, x, names);
    ParentOfEntriesStays(t, depth, x, names, |names|);
    SelfInside(t, depth, x);
    KeepInsideKept(t, t.nodes.Keys - gone, {x});
    KeepParts(t, t.nodes.Keys - gone);
    assert x in u.nodes;
    assert u.nodes[x] == KeepEntries(t.nodes[x], t.nodes.Keys - gone);
    hide WellFormed, Inside, Keep, IsListing, Gone;
    DropKeepsOthers(u, depth, x);
    assert t.nodes.Keys - gone - {x} == t.nodes.Keys - Subtree(t, depth, x);
  }

  lemma {:induction false} KeptPath(t: Tree, depth: map<nat, nat>, kept: set<nat>, y: nat)
    requires WellFormed(t, depth) && WellFormed(Keep(t, kept), depth) && y in Keep(t, kept).nodes
    ensures PathOf(Keep(t, kept), depth, y) == PathOf(t, depth, y)
    decreases depth[y]
  {
    if y != t.root {
      ParentDepth(Keep(t, kept), depth, y);
      ParentDepth(t, depth, y);
      hide WellFormed;
      KeptPath(t, depth, kept, Parent(t, y));
    }
  }
}
