/** The master process of master/monitor.h: its static vectors, changed in place by
    search-and-erase loops, and the node processes it sends messages to. Every method is
    proved against the event functions of Membership. */
module MasterProcess {
  import opened Text
  import opened NodeRole
  import opened Membership

  class Master {
    var backends: seq<Backend>
    var alive: seq<Backend>
    var dead: seq<Backend>
    // The flags of the node processes, after the messages sent so far.
    var roles: map<Address, Role>

    ghost function Abs(): Cluster
      reads this
    {
      Cluster(backends, alive, dead, roles)
    }

    /** `initialize_backend` (master/monitor.h:231-269), given the configured groups. */
    constructor (config: seq<Backend>)
      ensures Abs() == Initial(config)
    {
      backends, alive, dead := config, [], config;
      roles := map a | a in Addresses(config) :: STARTED;
    }

    /** master/monitor.h:43-50. */
    method GetGroupId(addr: Address) returns (group: nat)
      ensures group == GroupOf(backends, addr)
    {
      var it := Find(backends, ByName(addr));
      if it < |backends| {
        return backends[it].group;
      }
      return 0xffff_ffff;
    }

    /** master/monitor.h:53-64. */
    method GetCluster(addr: Address) returns (ret: seq<Address>)
      ensures ret == Members(alive, GroupOf(backends, addr))
    {
      ret := [];
      var group := GetGroupId(addr);
      var it := 0;
      assert alive[0..] == alive;
      while it < |alive|
        invariant it <= |alive|
        invariant ret + Members(alive[it..], group) == Members(alive, group)
      {
        assert alive[it..][1..] == alive[it + 1..];
        if alive[it].group == group {
          ret := ret + [alive[it].addr];
        }
        it := it + 1;
      }
    }

    /** master/monitor.h:97-107. */
    method GetPrimary(group: nat) returns (backend: Option<Address>)
      ensures backend == PrimaryOf(alive, group)
    {
      var it := 0;
      assert alive[0..] == alive;
      while it < |alive|
        invariant it <= |alive| && PrimaryOf(alive, group) == PrimaryOf(alive[it..], group)
      {
        assert alive[it..][1..] == alive[it + 1..];
        if alive[it].group == group {
          return Some(alive[it].addr);
        }
        it := it + 1;
      }
      return None;
    }

    /** master/monitor.h:76-94: one CLUSTER message a listed node, all delivered. */
    method BroadcastGroupAddr(vec: seq<Address>)
      modifies `roles
      ensures roles == Broadcast(old(roles), vec)
    {
      var told: set<Address> := {};
      ghost var before := roles;
      var it := 0;
      while it < |vec|
        invariant it <= |vec| && roles.Keys == before.Keys
        invariant told == set a | a in vec[..it]
        invariant forall a :: a in roles ==>
                    roles[a] == if a in told then OnCluster(before[a], PortOf(a), PortsOf(vec)) else before[a]
      {
        var addr := vec[it];
        if addr in roles {
          roles := roles[addr := OnCluster(roles[addr], PortOf(addr), PortsOf(vec))];
        }
        told := told + {addr};
        assert vec[..it + 1] == vec[..it] + [addr];
        it := it + 1;
      }
      assert vec[..it] == vec;
    }

    /** master/monitor.h:110-139. */
    method KillBackend(addr: Address) returns (found: bool)
      modifies this
      ensures (Abs(), found) == Membership.KillBackend(old(Abs()), addr)
    {
      var it := Find(backends, ByNameAndState(addr, Alive));
      if it < |backends| {
        backends := backends[it := backends[it].(state := Dead)];
      }
      it := Find(alive, ByName(addr));
      if it == |alive| {
        return false;
      }
      dead := dead + [alive[it].(state := Dead)];
      alive := RemoveAt(alive, it);
      var vec := GetCluster(addr);
      BroadcastGroupAddr(vec);
      if addr in roles {
        roles := roles[addr := OnKill(roles[addr])];
      }
      return true;
    }

    /** master/monitor.h:142-171. */
    method RestartBackend(addr: Address) returns (found: bool)
      modifies this
      ensures (Abs(), found) == Membership.RestartBackend(old(Abs()), addr)
    {
      var it := Find(backends, ByNameAndState(addr, Dead));
      if it < |backends| {
        backends := backends[it := backends[it].(state := Alive)];
      }
      it := Find(dead, ByNameAndState(addr, Dead));
      if it == |dead| {
        return false;
      }
      alive := alive + [dead[it].(state := Alive)];
      dead := RemoveAt(dead, it);
      var vec := GetCluster(addr);
      BroadcastGroupAddr(vec);
      if addr in roles {
        roles := roles[addr := OnRestart(roles[addr])];
      }
      return true;
    }

    /** master/monitor.h:174-205. */
    method DeleteBackendFd(fd: int) returns (found: bool)
      modifies this
      ensures (Abs(), found) == Membership.DeleteBackendFd(old(Abs()), fd)
    {
      var it := Find(backends, ByFd(fd));
      if it < |backends| {
        backends := backends[it := backends[it].(fd := -1, state := Crash)];
      }
      it := Find(alive, ByFd(fd));
      if it < |alive| {
        var addr := alive[it].addr;
        dead := dead + [alive[it].(fd := -1, state := Crash)];
        alive := RemoveAt(alive, it);
        var vec := GetCluster(addr);
        BroadcastGroupAddr(vec);
        return true;
      }
      it := Find(dead, ByFd(fd));
      if it < |dead| {
        dead := dead[it := dead[it].(fd := -1, state := Crash)];
        return true;
      }
      return false;
    }

    /** master/monitor.h:208-228. */
    method SetBackendFd(addr: Address, fd: int) returns (found: bool)
      modifies this
      ensures (Abs(), found) == Membership.SetBackendFd(old(Abs()), addr, fd)
    {
      var it := Find(backends, ByName(addr));
      if it < |backends| {
        backends := backends[it := backends[it].(fd := fd, state := Alive)];
      }
      it := Find(dead, ByName(addr));
      if it == |dead| {
        return false;
      }
      alive := alive + [dead[it].(fd := fd, state := Alive)];
      dead := RemoveAt(dead, it);
      var vec := GetCluster(addr);
      BroadcastGroupAddr(vec);
      return true;
    }
  }
}
