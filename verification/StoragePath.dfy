/** Paths of a file tree and their lookup (frontend/storage.h:67-74, 521-525, 651-692). */
module StoragePath {
  import opened Text
  import opened StorageTree
  import opened StorageSubtree

  // ---- The path of a node ----

  /** The names from below the root down to `x`. */
  ghost function Names(t: Tree, depth: map<nat, nat>, x: nat): seq<string>
    requires WellFormed(t, depth) && x in t.nodes
    decreases depth[x]
  {
    if x == t.root then [] else Names(t, depth, Parent(t, x)) + [t.nodes[x].name]
  }

  function PathOf(t: Tree, ghost depth: map<nat, nat>, x: nat): string
    requires WellFormed(t, depth) && x in t.nodes
    decreases depth[x]
  {
    if x == t.root then "/" + t.nodes[x].name
    else PathOf(t, depth, Parent(t, x)) + "/" + t.nodes[x].name
  }

  function JoinPath(names: seq<string>): string {
    if names == [] then "" else JoinPath(names[..|names| - 1]) + "/" + names[|names| - 1]
  }

  ghost predicate NamesOk(names: seq<string>) {
    forall i :: 0 <= i < |names| ==> NameOk(names[i])
  }

  lemma {:induction false} NamesAreOk(t: Tree, depth: map<nat, nat>, x: nat)
    requires WellFormed(t, depth) && x in t.nodes
    ensures NamesOk(Names(t, depth, x)) && (x != t.root ==> Names(t, depth, x) != [])
    decreases depth[x]
  {
    hide NameOk;
    if x != t.root {
      ParentDepth(t, depth, x);
      NamesAreOk(t, depth, Parent(t, x));
    }
  }

  lemma {:induction false} PathIsNames(t: Tree, depth: map<nat, nat>, x: nat)
    requires WellFormed(t, depth) && x in t.nodes
    ensures PathOf(t, depth, x) == "/" + t.nodes[t.root].name + JoinPath(Names(t, depth, x))
    decreases depth[x]
  {
    hide NameOk;
    if x == t.root {
      assert "/" + t.nodes[t.root].name + "" == "/" + t.nodes[t.root].name;
    } else {
      ParentDepth(t, depth, x);
      PathIsNames(t, depth, Parent(t, x));
      var ns := Names(t, depth, Parent(t, x));
      assert (ns + [t.nodes[x].name])[..|ns|] == ns;
      JoinStep("/" + t.nodes[t.root].name, JoinPath(ns), t.nodes[x].name);
    }
  }

  lemma JoinStep(a: string, b: string, c: string)
    ensures a + b + "/" + c == a + (b + "/" + c)
  {
  }

  // ---- Tokens ----

  /** Where the first '/' is, or the length when there is none. */
  function SlashAt(s: string): (n: nat)
    ensures n <= |s| && (forall i :: 0 <= i < n ==> s[i] != '/')
    ensures n < |s| ==> s[n] == '/'
  {
    if s == "" || s[0] == '/' then 0 else 1 + SlashAt(s[1..])
  }

  /** The parts between slashes, without empty ones. */
  function Tokens(s: string): seq<string>
    decreases |s|
  {
    var n := SlashAt(s);
    var first := if n == 0 then [] else [s[..n]];
    if n == |s| then first else first + Tokens(s[n + 1..])
  }

  lemma {:induction false} SlashAtIs(s: string, n: nat)
    requires n <= |s| && (forall i :: 0 <= i < n ==> s[i] != '/') && (n == |s| || s[n] == '/')
    ensures SlashAt(s) == n
  {
    if n > 0 {
      SlashAtIs(s[1..], n - 1);
    }
  }

  /** One name in front of the rest of a path. */
  lemma TokensStep(a: string, b: string)
    requires NameOk(a) && (b == "" || b[0] == '/')
    ensures Tokens(a + b) == [a] + Tokens(b)
  {
    hide NameOk;
    if b == "" {
      SlashAtIs("", 0);
      LastTokenOf(a);
      assert a + b == a && [a] + [] == [a];
    } else {
      TokensBeforeRest(a, b[1..]);
      assert a + "/" + b[1..] == a + b && "/" + b[1..] == b;
      TokensSlash(b[1..]);
    }
  }

  lemma LastTokenOf(a: string)
    requires NameOk(a)
    ensures Tokens(a) == [a]
  {
    SlashAtIs(a, |a|);
    assert a[..|a|] == a;
  }

  lemma TokensBeforeRest(a: string, rest: string)
    requires NameOk(a)
    ensures Tokens(a + "/" + rest) == [a] + Tokens(rest)
  {
    var s := a + "/" + rest;
    SlashAtIs(s, |a|);
    assert s[..|a|] == a && s[|a| + 1..] == rest;
  }

  lemma TokensSlash(s: string)
    ensures Tokens("/" + s) == Tokens(s)
  {
    assert ("/" + s)[1..] == s;
  }

  lemma {:induction false} TokensOfJoin(names: seq<string>, rest: string)
    requires NamesOk(names) && (rest == "" || rest[0] == '/')
    ensures Tokens(JoinPath(names) + rest) == names + Tokens(rest)
    decreases |names|
  {
    hide NameOk, Tokens;
    if names == [] {
      assert "" + rest == rest;
    } else {
      var front, last := names[..|names| - 1], names[|names| - 1];
      var tail := "/" + (last + rest);
      assert JoinPath(names) + rest == JoinPath(front) + tail;
      TokensOfJoin(front, tail);
      TokensSlash(last + rest);
      TokensStep(last, rest);
      assert front + ([last] + Tokens(rest)) == names + Tokens(rest);
    }
  }

  // ---- Lookup ----

  /** `Dangling` is a path that ends in '/': the last lookup finds no node, though it
      reports success. */
  datatype Found =
    | IsRoot
    | Node(dir: nat, name: string, node: nat)
    | NoEntry(dir: nat, name: string)
    | NoParent
    | Dangling(dir: nat, name: string)

  /** The loop over the parts of the path that end in a slash, and what follows it. */
  function Walk(t: Tree, dir: nat, name: string, path: string): Found
    decreases |path|
  {
    if dir !in t.nodes then NoParent else
    var n := SlashAt(path);
    if n < |path| then
      if n == 0 then Walk(t, dir, name, path[1..])
      else if path[..n] in t.nodes[dir].entries then
        Walk(t, t.nodes[dir].entries[path[..n]], path[..n], path[n + 1..])
      else NoParent
    else if path == "" then
      if name in t.nodes[dir].entries then Node(dir, name, t.nodes[dir].entries[name]) else Dangling(dir, name)
    else if path in t.nodes[dir].entries then Node(dir, path, t.nodes[dir].entries[path])
    else NoEntry(dir, path)
  }

  function Lookup(t: Tree, path: string): Found {
    if path == "/" then IsRoot else Walk(t, t.root, "", path)
  }

  /** Following names one by one. */
  function Resolve(t: Tree, dir: nat, names: seq<string>): Found
    requires names != []
    decreases |names|
  {
    if dir !in t.nodes then NoParent
    else if |names| == 1 then
      if names[0] in t.nodes[dir].entries then Node(dir, names[0], t.nodes[dir].entries[names[0]])
      else NoEntry(dir, names[0])
    else if names[0] in t.nodes[dir].entries then Resolve(t, t.nodes[dir].entries[names[0]], names[1..])
    else NoParent
  }

  predicate EndsInName(path: string) {
    path != "" && path[|path| - 1] != '/'
  }

  lemma {:induction false} TokensNotEmpty(path: string)
    requires EndsInName(path)
    ensures Tokens(path) != []
    decreases |path|
  {
    var n := SlashAt(path);
    if n < |path| && n == 0 {
      assert path[1..][|path| - 2] == path[|path| - 1];
      TokensNotEmpty(path[1..]);
    }
  }

  lemma TokensAt(path: string)
    requires SlashAt(path) < |path|
    ensures var n := SlashAt(path);
            Tokens(path) == (if n == 0 then [] else [path[..n]]) + Tokens(path[n + 1..])
  {
    hide SlashAt;
  }

  lemma WalkAt(t: Tree, dir: nat, name: string, path: string)
    requires SlashAt(path) < |path|
    ensures var n := SlashAt(path);
            Walk(t, dir, name, path) ==
            if dir !in t.nodes then NoParent
            else if n == 0 then Walk(t, dir, name, path[1..])
            else if path[..n] in t.nodes[dir].entries then
              Walk(t, t.nodes[dir].entries[path[..n]], path[..n], path[n + 1..])
            else NoParent
  {
  }

  lemma WalkLast(t: Tree, dir: nat, name: string, path: string)
    requires path != "" && SlashAt(path) == |path|
    ensures Tokens(path) == [path] && Walk(t, dir, name, path) == Resolve(t, dir, [path])
  {
    assert path[..|path|] == path;
  }

  lemma ResolveAt(t: Tree, dir: nat, first: string, names: seq<string>)
    requires names != []
    ensures Resolve(t, dir, [first] + names) ==
            if dir in t.nodes && first in t.nodes[dir].entries then Resolve(t, t.nodes[dir].entries[first], names)
            else NoParent
  {
    assert ([first] + names)[1..] == names;
  }

  lemma {:induction false} WalkNowhere(t: Tree, dir: nat, name: string, path: string)
    requires dir !in t.nodes
    ensures Walk(t, dir, name, path) == NoParent
  {
  }

  lemma ResolveNowhere(t: Tree, dir: nat, names: seq<string>)
    requires dir !in t.nodes && names != []
    ensures Resolve(t, dir, names) == NoParent
  {
  }

  /** On a path that ends in a name, the string scanner follows the tokens. */
  lemma {:induction false} WalkResolves(t: Tree, dir: nat, name: string, path: string)
    requires EndsInName(path)
    ensures Tokens(path) != [] && Walk(t, dir, name, path) == Resolve(t, dir, Tokens(path))
    decreases |path|
  {
    TokensNotEmpty(path);
    var n := SlashAt(path);
    hide Walk, Tokens, Resolve;
    if dir !in t.nodes {
      WalkNowhere(t, dir, name, path);
      ResolveNowhere(t, dir, Tokens(path));
    } else if n == |path| {
      WalkLast(t, dir, name, path);
    } else {
      var after := path[n + 1..];
      assert after[|after| - 1] == path[|path| - 1];
      TokensNotEmpty(after);
      TokensAt(path);
      WalkAt(t, dir, name, path);
      if n == 0 {
        assert [] + Tokens(after) == Tokens(after);
        WalkResolves(t, dir, name, after);
      } else {
        ResolveAt(t, dir, path[..n], Tokens(after));
        if path[..n] in t.nodes[dir].entries {
          WalkResolves(t, t.nodes[dir].entries[path[..n]], path[..n], after);
        }
      }
    }
  }

  // ---- Names and resolution are inverse ----

  lemma {:induction false} ResolveSnoc(t: Tree, dir: nat, names: seq<string>, last: string)
    requires names != []
    ensures Resolve(t, dir, names + [last]) ==
            match Resolve(t, dir, names)
            case Node(_, _, x) => Resolve(t, x, [last])
            case _ => NoParent
    decreases |names|
  {
    assert (names + [last])[0] == names[0];
    assert (names + [last])[1..] == names[1..] + [last];
    if |names| > 1 {
      if dir in t.nodes && names[0] in t.nodes[dir].entries {
        ResolveSnoc(t, t.nodes[dir].entries[names[0]], names[1..], last);
      }
    } else {
      assert names[1..] + [last] == [last];
    }
  }

  /** The names of a node lead to it. */
  lemma {:induction false} NamesLead(t: Tree, depth: map<nat, nat>, x: nat)
    requires WellFormed(t, depth) && x in t.nodes && x != t.root
    ensures ParentOk(t, x) && Names(t, depth, x) != []
    ensures Resolve(t, t.root, Names(t, depth, x)) == Node(Parent(t, x), t.nodes[x].name, x)
    decreases depth[x]
  {
    hide EntriesOk, NameOk;
    ParentDepth(t, depth, x);
    var p, name := Parent(t, x), t.nodes[x].name;
    assert Resolve(t, p, [name]) == Node(p, name, x);
    if p == t.root {
      assert Names(t, depth, x) == [name];
    } else {
      NamesLead(t, depth, p);
      ResolveSnoc(t, t.root, Names(t, depth, p), name);
    }
  }

  /** And only its own names lead to a node. */
  lemma {:induction false} OnlyNamesLead(t: Tree, depth: map<nat, nat>, names: seq<string>)
    requires WellFormed(t, depth) && names != [] && Resolve(t, t.root, names).Node?
    ensures var x := Resolve(t, t.root, names).node;
            x in t.nodes && x != t.root && names == Names(t, depth, x)
    decreases |names|
  {
    hide WellFormed, Resolve;
    var front, last := names[..|names| - 1], names[|names| - 1];
    assert names == front + [last];
    if front == [] {
      FirstName(t, depth, names);
    } else {
      ResolveSnoc(t, t.root, front, last);
      OnlyNamesLead(t, depth, front);
      LastStep(t, depth, Resolve(t, t.root, front).node, last);
    }
  }

  lemma LastName(t: Tree, depth: map<nat, nat>, p: nat, last: string)
    requires WellFormed(t, depth) && p in t.nodes && last in t.nodes[p].entries
    ensures var x := t.nodes[p].entries[last];
            x in t.nodes && x != t.root && Names(t, depth, x) == Names(t, depth, p) + [last]
  {
    At(t, depth, p);
  }

  lemma LastStep(t: Tree, depth: map<nat, nat>, p: nat, last: string)
    requires WellFormed(t, depth) && p in t.nodes && Resolve(t, p, [last]).Node?
    ensures var x := Resolve(t, p, [last]).node;
            x in t.nodes && x != t.root && Names(t, depth, x) == Names(t, depth, p) + [last]
  {
    hide WellFormed;
    LastName(t, depth, p, last);
  }

  lemma FirstName(t: Tree, depth: map<nat, nat>, names: seq<string>)
    requires WellFormed(t, depth) && |names| == 1 && Resolve(t, t.root, names).Node?
    ensures var x := Resolve(t, t.root, names).node;
            x in t.nodes && x != t.root && names == Names(t, depth, x)
  {
    LastName(t, depth, t.root, names[0]);
  }

  // ---- The path round trip ----

  /** What `HandleDelete` passes on: the path from the second slash on. */
  function StripUser(path: string): string {
    if path == "" then "" else path[1..][SlashAt(path[1..])..]
  }

  lemma StrippedPath(t: Tree, depth: map<nat, nat>, x: nat)
    requires WellFormed(t, depth) && x in t.nodes
    ensures StripUser(PathOf(t, depth, x)) == JoinPath(Names(t, depth, x))
  {
    hide WellFormed, PathOf, Names;
    RootName(t, depth);
    PathIsNames(t, depth, x);
    NamesAreOk(t, depth, x);
    var user, rest := t.nodes[t.root].name, JoinPath(Names(t, depth, x));
    var path := "/" + user + rest;
    assert path[1..] == user + rest;
    JoinStartsWithSlash(Names(t, depth, x));
    SlashAtIs(user + rest, |user|);
    assert (user + rest)[|user|..] == rest;
  }

  lemma RootName(t: Tree, depth: map<nat, nat>)
    requires WellFormed(t, depth)
    ensures t.root in t.nodes && '/' !in t.nodes[t.root].name && RootOk(t)
  {
  }

  lemma {:induction false} JoinStartsWithSlash(names: seq<string>)
    ensures names != [] ==> JoinPath(names) != "" && JoinPath(names)[0] == '/'
    ensures names == [] ==> JoinPath(names) == ""
  {
    if |names| > 1 {
      JoinStartsWithSlash(names[..|names| - 1]);
    }
  }

  lemma JoinEndsInName(names: seq<string>)
    requires names != [] && NamesOk(names)
    ensures EndsInName(JoinPath(names)) && JoinPath(names) != "/"
  {
    var last := names[|names| - 1];
    assert last[|last| - 1] != '/';
  }

  /** Round trip: the stripped path of any node but the root leads to that node, its
      parent and its name. */
  lemma PathRoundTrip(t: Tree, depth: map<nat, nat>, x: nat)
    requires WellFormed(t, depth) && x in t.nodes && x != t.root
    ensures ParentOk(t, x)
    ensures Lookup(t, StripUser(PathOf(t, depth, x))) == Node(Parent(t, x), t.nodes[x].name, x)
  {
    hide WellFormed, PathOf, Names, Walk, Resolve, JoinPath, StripUser;
    StrippedPath(t, depth, x);
    var names := Names(t, depth, x);
    NamesAreOk(t, depth, x);
    NamesLead(t, depth, x);
    JoinEndsInName(names);
    WalkResolves(t, t.root, "", JoinPath(names));
    TokensOfJoin(names, "");
    assert JoinPath(names) + "" == JoinPath(names) && names + Tokens("") == names;
  }

  // ---- Paths that end in slashes ----

  predicate Slashes(s: string) {
    forall i :: 0 <= i < |s| ==> s[i] == '/'
  }

  /** What the last step makes of a directory and the name by which it was reached. */
  function Again(t: Tree, dir: nat, name: string): Found {
    if dir !in t.nodes then NoParent
    else if name in t.nodes[dir].entries then Node(dir, name, t.nodes[dir].entries[name])
    else Dangling(dir, name)
  }

  lemma {:induction false} WalkSlashes(t: Tree, dir: nat, name: string, s: string)
    requires Slashes(s)
    ensures Walk(t, dir, name, s) == Again(t, dir, name)
    decreases |s|
  {
    if s != "" {
      SlashAtIs(s, 0);
      WalkSlashes(t, dir, name, s[1..]);
    } else {
      SlashAtIs(s, 0);
    }
  }

  /** With slashes behind it the scanner goes one step further than without. */
  lemma {:induction false} WalkPastName(t: Tree, dir: nat, name: string, q: string, s: string)
    requires EndsInName(q) && Slashes(s) && s != ""
    ensures Walk(t, dir, name, q + s) ==
            match Walk(t, dir, name, q)
            case Node(_, last, x) => Again(t, x, last)
            case _ => NoParent
    decreases |q|
  {
    hide Slashes, Again, Walk;
    var n := SlashAt(q);
    if n == |q| {
      LastBeforeSlashes(t, dir, name, q, s);
    } else {
      var after := q[n + 1..];
      assert after[|after| - 1] == q[|q| - 1];
      SlashAtIs(q + s, n);
      assert (q + s)[..n] == q[..n] && (q + s)[n + 1..] == after + s;
      WalkAt(t, dir, name, q);
      WalkAt(t, dir, name, q + s);
      if n == 0 {
        WalkPastName(t, dir, name, after, s);
      } else if dir in t.nodes && q[..n] in t.nodes[dir].entries {
        WalkPastName(t, t.nodes[dir].entries[q[..n]], q[..n], after, s);
      }
    }
  }

  lemma LastBeforeSlashes(t: Tree, dir: nat, name: string, q: string, s: string)
    requires q != "" && SlashAt(q) == |q| && Slashes(s) && s != ""
    ensures Walk(t, dir, name, q + s) ==
            match Walk(t, dir, name, q)
            case Node(_, last, x) => Again(t, x, last)
            case _ => NoParent
  {
    SlashAtIs(q + s, |q|);
    assert (q + s)[..|q|] == q && (q + s)[|q| + 1..] == s[1..];
    if dir in t.nodes && q in t.nodes[dir].entries {
      WalkSlashes(t, t.nodes[dir].entries[q], q, s[1..]);
    }
  }

  /** Slashes behind a path that ends in a name never lead to its node `x`: they lead to
      the entry of `x` that has the name of `x`, or report success without a node. A path
      that is not found is not found with slashes either. */
  lemma TrailingSlashes(t: Tree, depth: map<nat, nat>, q: string, s: string)
    requires WellFormed(t, depth) && EndsInName(q) && Slashes(s) && s != ""
    ensures match Lookup(t, q)
            case Node(_, name, x) =>
              && x in t.nodes
              && Lookup(t, q + s) == (if name in t.nodes[x].entries then Node(x, name, t.nodes[x].entries[name])
                                      else Dangling(x, name))
              && (Lookup(t, q + s).Node? ==> Lookup(t, q + s).node != x)
            case _ => Lookup(t, q + s) == NoParent
  {
    hide WellFormed, Walk;
    WalkPastName(t, t.root, "", q, s);
    LookupFinds(t, depth, q);
    LookupFinds(t, depth, q + s);
    if Lookup(t, q).Node? && Lookup(t, q + s).Node? {
      ParentDepth(t, depth, Lookup(t, q + s).node);
    }
  }

  /** A path of slashes alone, unless it is one slash, reports success without a node. */
  lemma OnlySlashes(t: Tree, depth: map<nat, nat>, s: string)
    requires WellFormed(t, depth) && Slashes(s) && s != "/"
    ensures Lookup(t, s) == Dangling(t.root, "")
  {
    WalkSlashes(t, t.root, "", s);
    LookupFinds(t, depth, s);
    RootName(t, depth);
    NoEmptyName(t, depth, t.root);
  }

  lemma NoEmptyName(t: Tree, depth: map<nat, nat>, x: nat)
    requires WellFormed(t, depth) && x in t.nodes
    ensures "" !in t.nodes[x].entries
  {
    if "" in t.nodes[x].entries {
      EntryNamed(t, depth, x, "");
    }
  }

  lemma EntryNamed(t: Tree, depth: map<nat, nat>, x: nat, n: string)
    requires WellFormed(t, depth) && x in t.nodes && n in t.nodes[x].entries
    ensures NameOk(n)
  {
    At(t, depth, x);
    At(t, depth, t.nodes[x].entries[n]);
  }

  /** Every path is a path that ends in a name, or nothing, with slashes behind it. */
  lemma {:induction false} SplitTrailing(path: string) returns (q: string, s: string)
    ensures path == q + s && Slashes(s) && (q == "" || EndsInName(q))
    ensures Tokens(path) == Tokens(q) && (s == "" ==> q == path)
    decreases |path|
  {
    if path == "" || path[|path| - 1] != '/' {
      q, s := path, "";
      assert path + "" == path;
    } else {
      var front := path[..|path| - 1];
      q, s := SplitTrailing(front);
      s := s + "/";
      assert path == front + "/";
      TokensBeforeSlash(front);
    }
  }

  lemma {:induction false} TokensBeforeSlash(path: string)
    ensures Tokens(path + "/") == Tokens(path)
    decreases |path|
  {
    var n, s := SlashAt(path), path + "/";
    SlashAtIs(s, n);
    assert s[..n] == path[..n];
    if n < |path| {
      assert s[n + 1..] == path[n + 1..] + "/";
      TokensBeforeSlash(path[n + 1..]);
    } else {
      assert s[n + 1..] == "";
      SlashAtIs("", 0);
      assert path[..n] == path;
    }
  }

  // ---- All paths ----

  /** The names that a path looks up: its parts, and the last of them again when slashes
      follow it. */
  function NamesLookedUp(path: string): seq<string> {
    var ts := Tokens(path);
    if ts == [] || EndsInName(path) then ts else ts + [ts[|ts| - 1]]
  }

  /** For every path whatever: it leads to `x` if and only if the names it looks up are the
      names of `x`. */
  lemma LookupIffPath(t: Tree, depth: map<nat, nat>, path: string, x: nat)
    requires WellFormed(t, depth)
    ensures (x in t.nodes && x != t.root && Names(t, depth, x) == NamesLookedUp(path)) <==>
            (Lookup(t, path).Node? && Lookup(t, path).node == x)
    ensures Lookup(t, path).Node? && Lookup(t, path).node == x ==>
              x in t.nodes && ParentOk(t, x) && Lookup(t, path) == Node(Parent(t, x), t.nodes[x].name, x)
  {
    hide WellFormed, Names, Walk, Resolve, Tokens, Slashes;
    LookupFinds(t, depth, path);
    var q, s := SplitTrailing(path);
    if s == "" && q != "" {
      NamedPath(t, depth, path, x);
    } else if q != "" {
      SlashedPath(t, depth, q, s, x);
    } else {
      assert "" + s == s;
      NoNames(t, depth, path, x);
    }
  }

  lemma NamedPath(t: Tree, depth: map<nat, nat>, path: string, x: nat)
    requires WellFormed(t, depth) && EndsInName(path)
    ensures (x in t.nodes && x != t.root && Names(t, depth, x) == Tokens(path)) <==>
            (Lookup(t, path).Node? && Lookup(t, path).node == x)
  {
    hide WellFormed, Names, Walk, Resolve, Tokens;
    WalkResolves(t, t.root, "", path);
    if x in t.nodes && x != t.root && Names(t, depth, x) == Tokens(path) {
      NamesLead(t, depth, x);
    } else if Lookup(t, path).Node? && Lookup(t, path).node == x {
      OnlyNamesLead(t, depth, Tokens(path));
    }
  }

  lemma SlashedPath(t: Tree, depth: map<nat, nat>, q: string, s: string, x: nat)
    requires WellFormed(t, depth) && EndsInName(q) && Slashes(s) && s != "" && Tokens(q + s) == Tokens(q)
    ensures (x in t.nodes && x != t.root && Names(t, depth, x) == NamesLookedUp(q + s)) <==>
            (Lookup(t, q + s).Node? && Lookup(t, q + s).node == x)
  {
    assert !EndsInName(q + s);
    hide WellFormed, Names, Walk, Resolve, Tokens, Slashes;
    TrailingSlashes(t, depth, q, s);
    WalkResolves(t, t.root, "", q);
    var ts := Tokens(q);
    var last := ts[|ts| - 1];
    ResolveSnoc(t, t.root, ts, last);
    LastToken(t, t.root, ts);
    if x in t.nodes && x != t.root && Names(t, depth, x) == ts + [last] {
      NamesLead(t, depth, x);
    } else if Resolve(t, t.root, ts + [last]).Node? && Resolve(t, t.root, ts + [last]).node == x {
      OnlyNamesLead(t, depth, ts + [last]);
    }
  }

  lemma {:induction false} LastToken(t: Tree, dir: nat, names: seq<string>)
    requires names != []
    ensures Resolve(t, dir, names).Node? ==> Resolve(t, dir, names).name == names[|names| - 1]
    decreases |names|
  {
    if |names| > 1 && dir in t.nodes && names[0] in t.nodes[dir].entries {
      LastToken(t, t.nodes[dir].entries[names[0]], names[1..]);
    }
  }

  lemma NoNames(t: Tree, depth: map<nat, nat>, path: string, x: nat)
    requires WellFormed(t, depth) && Slashes(path) && Tokens(path) == Tokens("")
    ensures NamesLookedUp(path) == [] && !Lookup(t, path).Node?
    ensures x in t.nodes && x != t.root ==> Names(t, depth, x) != []
  {
    hide WellFormed, Walk, Names, Slashes;
    SlashAtIs("", 0);
    if path != "/" {
      OnlySlashes(t, depth, path);
    }
    if x in t.nodes {
      NamesAreOk(t, depth, x);
    }
  }

  ghost predicate FoundOk(t: Tree, found: Found) {
    match found
    case Node(dir, name, x) =>
      x in t.nodes && x != t.root && ParentOk(t, x) && Parent(t, x) == dir && t.nodes[x].name == name
    case NoEntry(dir, name) => dir in t.nodes && name !in t.nodes[dir].entries && name != "" && '/' !in name
    case _ => true
  }

  lemma {:induction false} WalkFinds(t: Tree, depth: map<nat, nat>, dir: nat, name: string, path: string)
    requires WellFormed(t, depth)
    ensures FoundOk(t, Walk(t, dir, name, path))
    decreases |path|
  {
    hide WellFormed, FoundOk;
    var n := SlashAt(path);
    if dir !in t.nodes {
      NothingFound(t);
    } else if n == |path| {
      LastStepFinds(t, depth, dir, name, path);
    } else if n == 0 {
      WalkFinds(t, depth, dir, name, path[1..]);
    } else if path[..n] in t.nodes[dir].entries {
      WalkFinds(t, depth, t.nodes[dir].entries[path[..n]], path[..n], path[n + 1..]);
    } else {
      NothingFound(t);
    }
  }

  lemma LastStepFinds(t: Tree, depth: map<nat, nat>, dir: nat, name: string, path: string)
    requires WellFormed(t, depth) && dir in t.nodes && SlashAt(path) == |path|
    ensures FoundOk(t, Walk(t, dir, name, path))
  {
    EntryFound(t, depth, dir);
    hide WellFormed, ParentOk;
    assert '/' !in path;
  }

  lemma EntryFound(t: Tree, depth: map<nat, nat>, dir: nat)
    requires WellFormed(t, depth) && dir in t.nodes
    ensures forall n :: n in t.nodes[dir].entries ==> FoundOk(t, Node(dir, n, t.nodes[dir].entries[n]))
  {
    At(t, depth, dir);
    hide RootOk, DepthOk;
  }

  /** Every success of the lookup names an entry of a directory and the node it leads to,
      every missing entry is free. */
  lemma LookupFinds(t: Tree, depth: map<nat, nat>, path: string)
    requires WellFormed(t, depth)
    ensures FoundOk(t, Lookup(t, path))
  {
    hide FoundOk, Walk;
    WalkFinds(t, depth, t.root, "", path);
    NothingFound(t);
  }

  lemma NothingFound(t: Tree)
    ensures FoundOk(t, IsRoot) && FoundOk(t, NoParent)
  {
  }
}
