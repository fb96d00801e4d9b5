/** The part of a store node that decides whether it acts as primary: what the
    CLUSTER, KILL and RESTART messages do to its flags (backend/kvstore.cpp:22-64,
    147-151, backend/cluster_interface.h:11-23). */
module NodeRole {

  datatype Role = Role(isPrimary: bool, killed: bool)

  /** The flags of a process that has just started. */
  const STARTED: Role := Role(false, false)

  /** CLUSTER is handled even by a killed node, and it can only set the flag: a node
      that is no longer first in the list is not demoted. */
  function OnCluster(r: Role, myPort: int, ports: seq<int>): Role
    requires ports != []
  {
    if myPort == ports[0] then r.(isPrimary := true) else r
  }

  function OnKill(r: Role): Role {
    if r.killed then r else Role(false, true)
  }

  function OnRestart(r: Role): Role {
    r.(killed := false)
  }
}
