/** Subtrees of a file tree, and what is left when nodes disappear from it
    (frontend/storage.h:501-577). */
module StorageSubtree {
  import opened Text
  import opened StorageTree

  // ---- Keeping some of the nodes ----

  function KeepEntries(d: Dirent, kept: set<nat>): Dirent {
    d.(entries := map n | n in d.entries && d.entries[n] in kept :: d.entries[n])
  }

  /** The tree of the nodes in `kept`, with the entries that lead to such nodes. */
  function Keep(t: Tree, kept: set<nat>): Tree {
    t.(nodes := map x | x in t.nodes && x in kept :: KeepEntries(t.nodes[x], kept))
  }

  /** A part that contains the root and, with every node, the node's parent. */
  ghost predicate UpwardClosed(t: Tree, kept: set<nat>) {
    && t.root in kept
    && forall x :: x in kept && x in t.nodes && t.nodes[x].parent.Some? ==> t.nodes[x].parent.value in kept
  }

  lemma KeptEntriesOk(t: Tree, kept: set<nat>, x: nat)
    requires x in t.nodes && x in kept && EntriesOk(t, x)
    ensures EntriesOk(Keep(t, kept), x)
  {
    var u := Keep(t, kept);
    forall n | n in u.nodes[x].entries
      ensures var y := u.nodes[x].entries[n];
              y in u.nodes && y != u.root && u.nodes[y].parent == Some(x) && u.nodes[y].name == n
    {
      assert n in t.nodes[x].entries;
    }
  }

  lemma KeptParentOk(t: Tree, kept: set<nat>, x: nat)
    requires x in t.nodes && x in kept && ParentOk(t, x) && UpwardClosed(t, kept)
    ensures ParentOk(Keep(t, kept), x)
  {
  }

  lemma KeptNodeOk(t: Tree, depth: map<nat, nat>, kept: set<nat>, x: nat)
    requires WellFormed(t, depth) && UpwardClosed(t, kept) && x in t.nodes && x in kept
    ensures NodeOk(Keep(t, kept), x)
  {
    At(t, depth, x);
    hide WellFormed, ParentOk, EntriesOk, UpwardClosed;
    KeptEntriesOk(t, kept, x);
    if x != t.root {
      KeptParentOk(t, kept, x);
    }
  }

  /** What is left above the removed nodes is a tree. */
  lemma KeepIsTree(t: Tree, depth: map<nat, nat>, kept: set<nat>)
    requires WellFormed(t, depth) && UpwardClosed(t, kept)
    ensures WellFormed(Keep(t, kept), depth)
  {
    hide NodeOk;
    var u := Keep(t, kept);
    forall x | x in u.nodes ensures NodeOk(u, x) {
      KeptNodeOk(t, depth, kept, x);
    }
    KeptDepth(t, depth, kept);
    assert RootOk(u);
    hide DepthOk, RootOk, UpwardClosed;
  }

  lemma KeptDepth(t: Tree, depth: map<nat, nat>, kept: set<nat>)
    requires DepthOk(t, depth)
    ensures DepthOk(Keep(t, kept), depth)
  {
  }

  lemma {:induction false} KeptInside(t: Tree, depth: map<nat, nat>, kept: set<nat>, y: nat, c: nat)
    requires WellFormed(t, depth) && WellFormed(Keep(t, kept), depth) && y in Keep(t, kept).nodes
    ensures Inside(Keep(t, kept), depth, y, c) <==> Inside(t, depth, y, c)
    decreases depth[y]
  {
    if y != t.root && y != c {
      At(Keep(t, kept), depth, y);
      ParentDepth(t, depth, y);
      hide WellFormed;
      KeptInside(t, depth, kept, Parent(t, y), c);
    }
  }

  lemma ParentDepth(t: Tree, depth: map<nat, nat>, x: nat)
    requires WellFormed(t, depth) && x in t.nodes && x != t.root
    ensures ParentOk(t, x) && x in depth && Parent(t, x) in depth && depth[Parent(t, x)] < depth[x]
  {
    hide EntriesOk;
    At(t, depth, x);
  }

  lemma KeepAllEntries(t: Tree, x: nat)
    requires x in t.nodes && EntriesOk(t, x)
    ensures KeepEntries(t.nodes[x], t.nodes.Keys) == t.nodes[x]
  {
    assert KeepEntries(t.nodes[x], t.nodes.Keys).entries == t.nodes[x].entries;
  }

  lemma KeepAll(t: Tree, depth: map<nat, nat>)
    requires WellFormed(t, depth)
    ensures Keep(t, t.nodes.Keys) == t
  {
    hide WellFormed, EntriesOk;
    var u := Keep(t, t.nodes.Keys);
    forall x | x in t.nodes ensures u.nodes[x] == t.nodes[x] {
      At(t, depth, x);
      KeepAllEntries(t, x);
    }
    assert u.nodes == t.nodes;
  }

  lemma KeepTwice(t: Tree, a: set<nat>, b: set<nat>)
    ensures Keep(Keep(t, a), b) == Keep(t, a * b)
  {
    var u, v := Keep(Keep(t, a), b), Keep(t, a * b);
    forall x | x in v.nodes ensures u.nodes[x] == v.nodes[x] {
      assert u.nodes[x].entries == v.nodes[x].entries;
    }
    assert u.nodes == v.nodes;
  }

  // ---- Removing one node without entries (frontend/storage.h:550-553) ----

  function Drop(t: Tree, x: nat): Tree
    requires x in t.nodes && t.nodes[x].parent.Some?
  {
    t.(nodes := map y | y in t.nodes && y != x ::
                  if y == Parent(t, x) then t.nodes[y].(entries := t.nodes[y].entries - {t.nodes[x].name})
                  else t.nodes[y])
  }

  lemma DropEntries(t: Tree, x: nat, y: nat)
    requires x in t.nodes && y in t.nodes && y != x && ParentOk(t, x) && EntriesOk(t, y)
    ensures Drop(t, x).nodes[y] == KeepEntries(t.nodes[y], t.nodes.Keys - {x})
  {
    var d, e := Drop(t, x).nodes[y], KeepEntries(t.nodes[y], t.nodes.Keys - {x});
    forall n | n in t.nodes[y].entries ensures n in d.entries <==> n in e.entries {
      assert t.nodes[y].entries[n] == x <==> y == Parent(t, x) && n == t.nodes[x].name;
    }
    assert d.entries == e.entries;
  }

  /** Erasing a node and its directory entry removes exactly that node. */
  lemma DropKeepsOthers(t: Tree, depth: map<nat, nat>, x: nat)
    requires WellFormed(t, depth) && x in t.nodes && x != t.root
    ensures ParentOk(t, x) && Drop(t, x) == Keep(t, t.nodes.Keys - {x})
  {
    At(t, depth, x);
    var u, v := Drop(t, x), Keep(t, t.nodes.Keys - {x});
    assert u.nodes.Keys == v.nodes.Keys == t.nodes.Keys - {x};
    hide WellFormed, ParentOk, Drop, KeepEntries, EntriesOk;
    forall y | y in v.nodes ensures u.nodes[y] == v.nodes[y] {
      At(t, depth, y);
      DropEntries(t, x, y);
    }
    assert u.nodes == v.nodes;
    DropParts(t, x);
  }

  lemma DropParts(t: Tree, x: nat)
    requires x in t.nodes && t.nodes[x].parent.Some?
    ensures Drop(t, x).root == t.root && Drop(t, x).latest == t.latest
  {
  }

  // ---- Subtrees ----

  ghost function Subtree(t: Tree, depth: map<nat, nat>, x: nat): set<nat>
    requires WellFormed(t, depth)
  {
    set y | y in t.nodes && Inside(t, depth, y, x)
  }

  /** The tree without the subtree of `x`. */
  ghost function Without(t: Tree, depth: map<nat, nat>, x: nat): Tree
    requires WellFormed(t, depth)
  {
    Keep(t, t.nodes.Keys - Subtree(t, depth, x))
  }

  lemma WithoutIsTree(t: Tree, depth: map<nat, nat>, x: nat)
    requires WellFormed(t, depth) && x in t.nodes && x != t.root
    ensures WellFormed(Without(t, depth, x), depth)
  {
    hide EntriesOk;
    var kept := t.nodes.Keys - Subtree(t, depth, x);
    forall y | y in kept && t.nodes[y].parent.Some? ensures t.nodes[y].parent.value in kept {
      At(t, depth, y);
    }
    KeepIsTree(t, depth, kept);
  }

  lemma SiblingOutside(t: Tree, depth: map<nat, nat>, a: nat, b: nat)
    requires WellFormed(t, depth) && a in t.nodes && b in t.nodes && a != t.root && b != t.root
    requires t.nodes[a].parent == t.nodes[b].parent && Inside(t, depth, a, b)
    ensures a == b
  {
    ParentDepth(t, depth, a);
    ParentDepth(t, depth, b);
    if a != b {
      InsideDeeper(t, depth, Parent(t, a), b);
    }
  }

  /** Subtrees of different children are disjoint. */
  lemma {:induction false} SiblingsApart(t: Tree, depth: map<nat, nat>, y: nat, a: nat, b: nat)
    requires WellFormed(t, depth) && y in t.nodes && a in t.nodes && b in t.nodes && a != t.root && b != t.root
    requires t.nodes[a].parent == t.nodes[b].parent && Inside(t, depth, y, a) && Inside(t, depth, y, b)
    ensures a == b
    decreases depth[y]
  {
    if y == a {
      SiblingOutside(t, depth, a, b);
    } else if y == b {
      SiblingOutside(t, depth, b, a);
    } else {
      ParentDepth(t, depth, y);
      SiblingsApart(t, depth, Parent(t, y), a, b);
    }
  }

  /** What lies inside `x` is `x` or lies inside one of its entries. */
  lemma {:induction false} InsideEntry(t: Tree, depth: map<nat, nat>, y: nat, x: nat) returns (n: string)
    requires WellFormed(t, depth) && y in t.nodes && x in t.nodes && Inside(t, depth, y, x) && y != x
    ensures n in t.nodes[x].entries && t.nodes[x].entries[n] in t.nodes
    ensures Inside(t, depth, y, t.nodes[x].entries[n])
    decreases depth[y]
  {
    ParentDepth(t, depth, y);
    if Parent(t, y) == x {
      n := t.nodes[y].name;
    } else {
      n := InsideEntry(t, depth, Parent(t, y), x);
    }
  }

  lemma {:induction false} InsideUp(t: Tree, depth: map<nat, nat>, y: nat, c: nat)
    requires WellFormed(t, depth) && y in t.nodes && c in t.nodes && c != t.root && Inside(t, depth, y, c)
    ensures ParentOk(t, c) && Inside(t, depth, y, Parent(t, c))
    decreases depth[y]
  {
    ParentDepth(t, depth, c);
    if y != c {
      ParentDepth(t, depth, y);
      InsideUp(t, depth, Parent(t, y), c);
    }
  }
}
