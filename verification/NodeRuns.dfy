/** Whole runs of node processes, from their first start on: whatever commands, messages,
    kills, restarts and synchronisations they go through, the chunk files stay bounded. */
module NodeRuns {
  import opened Text
  import opened Status
  import opened ChunkFolder
  import opened ChunkStore
  import opened KvModel
  import opened KvCaches
  import opened SizeBounds
  import opened SyncMessages
  import opened KvNode

  datatype NodeEvent =
    | Start(i: nat)                       // as a primary (backend/cache.h:132-150)
    | Receive(i: nat, c: Command)         // one command (backend/kvstore.cpp:66-146)
    | Cluster(i: nat, ports: seq<int>)
    | KillNode(i: nat)
    | RestartNode(i: nat, from: nat)

  ghost predicate EventFits(e: NodeEvent, slack: nat) {
    match e
    case Receive(_, c) => KeyOk(c) && CommandFits(c, slack) && CommandReadable(c)
    case Cluster(_, ports) => ports != []
    case _ => true
  }

  /** The objects of one process. */
  function Parts(n: Node): set<object> {
    {n, n.disk, n.cache, n.globals}
  }

  ghost predicate Apart(nodes: seq<Node>) {
    forall i, j :: 0 <= i < j < |nodes| ==> Parts(nodes[i]) !! Parts(nodes[j])
  }

  function AllParts(nodes: seq<Node>): set<object> {
    set i, o | 0 <= i < |nodes| && o in Parts(nodes[i]) :: o
  }

  /** A process in order, with every record and chunk file within the bound, and no blank
      in the names of the users with folders. */
  ghost predicate Good(n: Node, slack: nat)
    reads n, n.disk, n.cache
  {
    n.Valid() && n.Bounded(slack) && BlankFree(n.disk.folders.Keys)
  }

  lemma PartIn(nodes: seq<Node>, i: nat)
    requires i < |nodes|
    ensures Parts(nodes[i]) <= AllParts(nodes)
  {
  }

  lemma OthersApart(nodes: seq<Node>, i: nat, j: nat)
    requires Apart(nodes) && i < |nodes| && j < |nodes| && i != j
    ensures Parts(nodes[i]) !! Parts(nodes[j])
  {
  }

  /** One event on one process; it has no effect where the process would not take it. */
  method Happen(node: Node, primary: Node, e: NodeEvent, ghost slack: nat)
    requires Good(node, slack) && Good(primary, slack) && EventFits(e, slack)
    requires primary == node || Parts(primary) !! Parts(node)
    modifies Parts(node)
    ensures Good(node, slack)
  {
    hide AllSizesOk, UpdatesFit, LogBounded, FoldersOk, DiskTable, CommandFits, CommandReadable, KeysNewlineFree,
      BlankFree;
    match e
    case Start(_) =>
      StartNode(node, slack);
    case Receive(_, c) =>
      TakeCommand(node, c, slack);
    case Cluster(_, ports) =>
      node.ParseSecondaryFromMaster(ports);
    case KillNode(_) =>
      node.Kill();
    case RestartNode(_, _) =>
      if primary != node && node.globals.killed && primary.globals.isPrimary {
        RestartFrom(node, primary, slack);
      }
  }

  method TakeCommand(node: Node, c: Command, ghost slack: nat)
    requires Good(node, slack) && KeyOk(c) && CommandFits(c, slack) && CommandReadable(c)
    modifies Parts(node)
    ensures Good(node, slack)
  {
    hide AllSizesOk, UpdatesFit, LogBounded, FoldersOk, DiskTable, CommandFits, CommandReadable, KeysNewlineFree,
      BlankFree, Step;
    ghost var before := node.cache.Abs();
    var reply := node.RunCommand(c, slack);
    FoldersFromSignUp(before, c);
    if c.CputCmd? {
      UserIsBlankFree(c);
    }
    OneMoreBlankFree(before.disk.Keys, node.disk.folders.Keys, c);
  }

  lemma UserIsBlankFree(c: Command)
    requires CommandReadable(c) && c.CputCmd?
    ensures BlankFree({c.usr})
  {
  }

  lemma OneMoreBlankFree(users: set<string>, more: set<string>, c: Command)
    requires BlankFree(users) && more <= users + if c.CputCmd? then {c.usr} else {}
    requires c.CputCmd? ==> BlankFree({c.usr})
    ensures BlankFree(more)
  {
  }

  lemma BothBlankFree(users: set<string>, others: set<string>, more: set<string>)
    requires BlankFree(users) && BlankFree(others) && more <= users + others
    ensures BlankFree(more)
  {
  }

  method RestartFrom(node: Node, primary: Node, ghost slack: nat)
    requires Good(node, slack) && Good(primary, slack) && Parts(primary) !! Parts(node)
    requires node.globals.killed && primary.globals.isPrimary
    modifies Parts(node)
    ensures Good(node, slack)
  {
    hide AllSizesOk, UpdatesFit, LogBounded, FoldersOk, DiskTable, KeysNewlineFree, BlankFree,
      History.InitCacheForPrimary, History.RecoverFromPrimary, History.Sends;
    ghost var users := node.disk.folders.Keys;
    var status, messages := node.Restart(primary);
    BothBlankFree(users, primary.disk.folders.Keys, node.disk.folders.Keys);
  }

  method StartNode(node: Node, ghost slack: nat)
    requires Good(node, slack)
    modifies node.cache, node.disk, node.globals
    ensures Good(node, slack)
  {
    hide AllSizesOk, UpdatesFit, LogBounded, FoldersOk, DiskTable, KeysNewlineFree, History.InitCacheForPrimary,
      BlankFree;
    ghost var before := node.cache.Abs();
    InitStaysBounded(before, slack);
    var status := node.cache.InitCacheForPrimary();
  }

  /** The chunk size bound over runs: if every record that is ever put is at most `slack`
      bytes long, no chunk file of any node ever exceeds the limit by more than that, and
      the chunk that is appended to is within the limit. */
  method RunNodes(nodes: seq<Node>, events: seq<NodeEvent>, ghost slack: nat)
    requires Apart(nodes) && forall j :: 0 <= j < |nodes| ==> Good(nodes[j], slack)
    requires forall k :: 0 <= k < |events| ==> EventFits(events[k], slack)
    modifies AllParts(nodes)
    ensures forall j :: 0 <= j < |nodes| ==> Good(nodes[j], slack)
  {
    hide Good, EventFits, AllParts, Apart;
    for k := 0 to |events|
      invariant forall j :: 0 <= j < |nodes| ==> Good(nodes[j], slack)
    {
      var i := events[k].i;
      if i < |nodes| {
        var p := if events[k].RestartNode? && events[k].from < |nodes| then events[k].from else i;
        PartIn(nodes, i);
        forall j: nat | j < |nodes| && j != i ensures Parts(nodes[i]) !! Parts(nodes[j]) {
          OthersApart(nodes, i, j);
        }
        Happen(nodes[i], nodes[p], events[k], slack);
      }
    }
  }

  /** A new process beside the others. */
  method NextNode(nodes: seq<Node>, port: int) returns (more: seq<Node>)
    requires Apart(nodes)
    ensures Apart(more) && |more| == |nodes| + 1 && more[..|nodes|] == nodes
    ensures fresh(Parts(more[|nodes|])) && forall slack: nat :: Good(more[|nodes|], slack)
  {
    var node := new Node(port);
    more := nodes + [node];
  }

  /** Nodes as they are before their first start. */
  method FirstNodes(ports: seq<int>) returns (nodes: seq<Node>)
    ensures |nodes| == |ports| && Apart(nodes)
    ensures forall j :: 0 <= j < |nodes| ==> fresh(Parts(nodes[j]))
    ensures forall j, slack: nat :: 0 <= j < |nodes| ==> Good(nodes[j], slack)
  {
    hide Good, Apart;
    nodes := [];
    NoneApart();
    for k := 0 to |ports|
      invariant |nodes| == k && Apart(nodes)
      invariant forall j :: 0 <= j < |nodes| ==> fresh(Parts(nodes[j]))
      invariant forall j, slack: nat :: 0 <= j < |nodes| ==> Good(nodes[j], slack)
    {
      ghost var before := nodes;
      nodes := NextNode(nodes, ports[k]);
      assert forall j :: 0 <= j < k ==> nodes[j] == before[j];
    }
  }

  lemma NoneApart()
    ensures Apart([])
  {
  }

  /** From the first start on: after any run the files of every user on every node are
      within the bound. */
  method RunFromStart(ports: seq<int>, events: seq<NodeEvent>, ghost slack: nat) returns (nodes: seq<Node>)
    requires forall k :: 0 <= k < |events| ==> EventFits(events[k], slack)
    ensures |nodes| == |ports|
    ensures forall i :: 0 <= i < |nodes| ==> AllSizesOk(nodes[i].disk.folders, slack)
  {
    hide EventFits, Apart;
    nodes := FirstNodes(ports);
    RunNodes(nodes, events, slack);
    assert forall i :: 0 <= i < |nodes| ==> Good(nodes[i], slack);
  }
}
