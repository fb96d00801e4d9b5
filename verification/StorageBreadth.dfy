/** Going through the directories of a tree level by level with a queue, as the printer
    and the search for movable directories do (frontend/storage.h:625-646, 790-805). */
module StorageBreadth {
  import opened Text
  import opened StorageTree
  import opened StorageSubtree

  // ---- Iteration order of the entries ----

  ghost predicate NoRepeats<T(!new)>(s: seq<T>) {
    forall i, j :: 0 <= i < j < |s| ==> s[i] != s[j]
  }

  /** `names` is one possible iteration order of the entries. */
  ghost predicate IsListing(entries: map<string, nat>, names: seq<string>) {
    NoRepeats(names) && |names| == |entries| && forall n :: n in names <==> n in entries
  }

  type Order = map<nat, seq<string>>

  ghost predicate Lists(t: Tree, order: Order) {
    forall d :: d in t.nodes ==> d in order && IsListing(t.nodes[d].entries, order[d])
  }

  // ---- The queue ----

  predicate IsDir(t: Tree, y: nat) {
    y in t.nodes && !t.nodes[y].isFile
  }

  /** What the loop over the entries of `d` pushes. */
  function ChildDirs(t: Tree, d: nat, names: seq<string>): seq<nat>
    requires d in t.nodes && forall n :: n in names ==> n in t.nodes[d].entries
  {
    if names == [] then []
    else
      var y := t.nodes[d].entries[names[0]];
      (if IsDir(t, y) then [y] else []) + ChildDirs(t, d, names[1..])
  }

  /** `all` are the directories pushed so far, the first `k` of them were popped. Below
      `stop` nothing is pushed. */
  ghost predicate Frontier(t: Tree, stop: Option<nat>, all: seq<nat>, k: nat) {
    && k <= |all| && all != [] && all[0] == t.root && NoRepeats(all)
    && (forall i :: 0 <= i < |all| ==> IsDir(t, all[i]))
    && (forall i :: 0 < i < |all| ==> ParentBefore(t, stop, all, k, i))
    && (forall y :: IsDir(t, y) && y != t.root ==> PushedWithParent(t, stop, all, k, y))
  }

  ghost predicate ParentBefore(t: Tree, stop: Option<nat>, all: seq<nat>, k: nat, i: nat)
    requires k <= |all| && i < |all|
  {
    && all[i] != t.root && IsDir(t, all[i]) && t.nodes[all[i]].parent.Some? && t.nodes[all[i]].parent != stop
    && exists j :: 0 <= j < k && j < i && all[j] == t.nodes[all[i]].parent.value
  }

  ghost predicate PushedWithParent(t: Tree, stop: Option<nat>, all: seq<nat>, k: nat, y: nat)
    requires k <= |all| && IsDir(t, y)
  {
    t.nodes[y].parent.Some? && t.nodes[y].parent.value in all[..k] && t.nodes[y].parent != stop ==> y in all
  }

  lemma Started(t: Tree, depth: map<nat, nat>, stop: Option<nat>)
    requires WellFormed(t, depth)
    ensures Frontier(t, stop, [t.root], 0)
  {
    At(t, depth, t.root);
  }

  // ---- One round ----

  lemma {:induction false} ChildDirsAre(t: Tree, d: nat, names: seq<string>, y: nat)
    requires d in t.nodes && forall n :: n in names ==> n in t.nodes[d].entries
    ensures y in ChildDirs(t, d, names) <==>
            IsDir(t, y) && exists i :: 0 <= i < |names| && t.nodes[d].entries[names[i]] == y
  {
    if names != [] {
      ChildDirsAre(t, d, names[1..], y);
      assert forall i :: 0 <= i < |names| - 1 ==> names[1..][i] == names[i + 1];
      if exists i :: 0 <= i < |names| && t.nodes[d].entries[names[i]] == y {
        var i :| 0 <= i < |names| && t.nodes[d].entries[names[i]] == y;
        if i > 0 {
          assert names[1..][i - 1] == names[i];
        }
      }
    }
  }

  lemma {:induction false} ChildDirsDistinct(t: Tree, d: nat, names: seq<string>)
    requires d in t.nodes && (forall n :: n in names ==> n in t.nodes[d].entries) && EntriesOk(t, d) && NoRepeats(names)
    ensures NoRepeats(ChildDirs(t, d, names))
  {
    if names != [] {
      var rest := names[1..];
      ChildDirsDistinct(t, d, rest);
      var y := t.nodes[d].entries[names[0]];
      ChildDirsAre(t, d, rest, y);
      assert forall i :: 0 <= i < |rest| ==> rest[i] == names[i + 1] && t.nodes[d].entries[rest[i]] != y;
    }
  }

  /** The directories among the entries of `d`. */
  lemma ChildDirsOfListing(t: Tree, depth: map<nat, nat>, d: nat, names: seq<string>)
    requires WellFormed(t, depth) && d in t.nodes && IsListing(t.nodes[d].entries, names)
    ensures NoRepeats(ChildDirs(t, d, names))
    ensures forall y :: y in ChildDirs(t, d, names) <==> IsDir(t, y) && y != t.root && t.nodes[y].parent == Some(d)
  {
    At(t, depth, d);
    ChildDirsDistinct(t, d, names);
    forall y ensures y in ChildDirs(t, d, names) <==> IsDir(t, y) && y != t.root && t.nodes[y].parent == Some(d) {
      ChildDirsAre(t, d, names, y);
      if IsDir(t, y) && y != t.root && t.nodes[y].parent == Some(d) {
        At(t, depth, y);
        var n := t.nodes[y].name;
        assert n in names;
      }
    }
  }

  lemma Round(t: Tree, stop: Option<nat>, all: seq<nat>, k: nat, children: seq<nat>)
    requires Frontier(t, stop, all, k) && k < |all| && NoRepeats(children)
    requires stop == Some(all[k]) ==> children == []
    requires stop != Some(all[k]) ==>
      forall y :: y in children <==> IsDir(t, y) && y != t.root && t.nodes[y].parent == Some(all[k])
    ensures Frontier(t, stop, all + children, k + 1)
  {
    hide IsDir;
    var more, k1 := all + children, k + 1;
    forall y | y in children ensures y !in all {
      NotYetPushed(t, stop, all, k, y);
    }
    RoundDistinct(all, children);
    forall i | 0 < i < |more| ensures ParentBefore(t, stop, more, k1, i) {
      if i < |all| {
        assert ParentBefore(t, stop, all, k, i);
        ParentStillBefore(t, stop, all, k, children, i);
      } else {
        assert more[i] == children[i - |all|];
        assert more[k] == all[k];
      }
    }
    forall y | IsDir(t, y) && y != t.root ensures PushedWithParent(t, stop, more, k + 1, y) {
      assert PushedWithParent(t, stop, all, k, y);
      assert more[..k + 1] == all[..k] + [all[k]];
    }
    forall i | 0 <= i < |more| ensures IsDir(t, more[i]) {
      assert i >= |all| ==> more[i] == children[i - |all|];
    }
  }

  lemma ParentStillBefore(t: Tree, stop: Option<nat>, all: seq<nat>, k: nat, children: seq<nat>, i: nat)
    requires k < |all| && 0 < i < |all| && ParentBefore(t, stop, all, k, i)
    ensures ParentBefore(t, stop, all + children, k + 1, i)
  {
    var more := all + children;
    var j :| 0 <= j < k && j < i && all[j] == t.nodes[all[i]].parent.value;
    assert more[i] == all[i] && more[j] == all[j];
  }

  lemma NotYetPushed(t: Tree, stop: Option<nat>, all: seq<nat>, k: nat, y: nat)
    requires Frontier(t, stop, all, k) && k < |all|
    requires IsDir(t, y) && y != t.root && t.nodes[y].parent == Some(all[k])
    ensures y !in all
  {
    hide IsDir;
    forall i | 0 <= i < |all| ensures all[i] != y {
      if i > 0 {
        assert ParentBefore(t, stop, all, k, i);
      }
    }
  }

  lemma RoundDistinct(all: seq<nat>, children: seq<nat>)
    requires NoRepeats(all) && NoRepeats(children) && forall y :: y in children ==> y !in all
    ensures NoRepeats(all + children)
  {
    var more := all + children;
    forall i, j | 0 <= i < j < |more| ensures more[i] != more[j] {
      if i < |all| <= j {
        assert more[i] == all[i] && more[j] == children[j - |all|];
        assert more[j] in children;
      }
    }
  }

  // ---- The end ----

  /** When the queue is empty, exactly the directories outside the part below `stop` were
      reached. */
  lemma {:induction false} Reached(t: Tree, depth: map<nat, nat>, stop: Option<nat>, all: seq<nat>, y: nat)
    requires WellFormed(t, depth) && Frontier(t, stop, all, |all|) && IsDir(t, y)
    ensures y in all <==> (stop == None || y == stop.value || !Inside(t, depth, y, stop.value))
    decreases depth[y]
  {
    hide NoRepeats;
    if y != t.root {
      ParentDepth(t, depth, y);
      Reached(t, depth, stop, all, Parent(t, y));
      ReachedStep(t, stop, all, y);
      ParentOutside(t, depth, y);
      hide WellFormed, Frontier;
    }
  }

  lemma ParentOutside(t: Tree, depth: map<nat, nat>, y: nat)
    requires WellFormed(t, depth) && y in t.nodes && y != t.root
    ensures ParentOk(t, y) && !Inside(t, depth, Parent(t, y), y)
  {
    hide Inside;
    ParentDepth(t, depth, y);
    if Inside(t, depth, Parent(t, y), y) {
      InsideDeeper(t, depth, Parent(t, y), y);
    }
  }

  lemma ReachedStep(t: Tree, stop: Option<nat>, all: seq<nat>, y: nat)
    requires Frontier(t, stop, all, |all|) && IsDir(t, y) && y != t.root && ParentOk(t, y)
    ensures y in all <==> Parent(t, y) in all && Some(Parent(t, y)) != stop
  {
    hide NoRepeats;
    assert PushedWithParent(t, stop, all, |all|, y);
    assert all[..|all|] == all;
    if y in all {
      var i :| 0 <= i < |all| && all[i] == y;
      assert ParentBefore(t, stop, all, |all|, i);
    }
  }

  /** The loop ends: every round takes another directory off the queue. */
  lemma {:induction false} NoMoreThanNodes(nodes: set<nat>, all: seq<nat>)
    requires NoRepeats(all) && forall i :: 0 <= i < |all| ==> all[i] in nodes
    ensures |all| <= |nodes|
    decreases |all|
  {
    if all != [] {
      var last := all[|all| - 1];
      NoMoreThanNodes(nodes - {last}, all[..|all| - 1]);
    }
  }

  lemma FrontierFits(t: Tree, stop: Option<nat>, all: seq<nat>, k: nat)
    requires Frontier(t, stop, all, k)
    ensures |all| <= |t.nodes|
  {
    NoMoreThanNodes(t.nodes.Keys, all);
  }

  /** What is pushed when `d` is taken off the queue. */
  function Pushed(t: Tree, stop: Option<nat>, order: Order, d: nat): seq<nat>
    requires d in t.nodes && d in order && forall n :: n in order[d] ==> n in t.nodes[d].entries
  {
    if stop == Some(d) then [] else ChildDirs(t, d, order[d])
  }

  lemma NextRound(t: Tree, depth: map<nat, nat>, stop: Option<nat>, order: Order, all: seq<nat>, k: nat)
    requires WellFormed(t, depth) && Lists(t, order) && Frontier(t, stop, all, k) && k < |all|
    ensures all[k] in t.nodes && all[k] in order
    ensures forall n :: n in order[all[k]] ==> n in t.nodes[all[k]].entries
    ensures Frontier(t, stop, all + Pushed(t, stop, order, all[k]), k + 1)
  {
    assert IsDir(t, all[k]) && IsListing(t.nodes[all[k]].entries, order[all[k]]);
    hide WellFormed, Frontier, Lists;
    if stop != Some(all[k]) {
      ChildDirsOfListing(t, depth, all[k], order[all[k]]);
    }
    Round(t, stop, all, k, Pushed(t, stop, order, all[k]));
  }

  /** The rounds that are left when `k` of the pushed directories were popped. */
  ghost function Rounds(t: Tree, depth: map<nat, nat>, stop: Option<nat>, order: Order, all: seq<nat>, k: nat)
    : (r: seq<nat>)
    requires WellFormed(t, depth) && Lists(t, order) && Frontier(t, stop, all, k)
    ensures Frontier(t, stop, r, |r|) && all <= r
    decreases |t.nodes| - k
  {
    if k == |all| then all
    else
      NextRound(t, depth, stop, order, all, k);
      FrontierFits(t, stop, all, k);
      Rounds(t, depth, stop, order, all + Pushed(t, stop, order, all[k]), k + 1)
  }

  /** The directories in the order in which the queue delivers them. */
  ghost function Breadth(t: Tree, depth: map<nat, nat>, stop: Option<nat>, order: Order): (r: seq<nat>)
    requires WellFormed(t, depth) && Lists(t, order)
    ensures Frontier(t, stop, r, |r|)
  {
    Started(t, depth, stop);
    Rounds(t, depth, stop, order, [t.root], 0)
  }
}
