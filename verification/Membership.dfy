/** Cluster membership in the master (master/monitor.h): which backends are alive, which
    of them is primary of its group, and what the broadcasts make of the nodes' own
    flags. Messages are delivered before the next event. */
module Membership {
  import opened Text
  import opened NodeRole

  datatype BackendState = Alive | Dead | Crash

  /** An address is its name, "ip:port". */
  type Address = string

  datatype Backend = Backend(state: BackendState, fd: int, group: nat, addr: Address)

  /** What is behind the first colon; without one, the 32-bit position wraps around and
      it is the whole name (common/address_parse.h:28-34). */
  function BehindColon(addr: Address): string {
    if ':' !in addr then addr
    else if addr[0] == ':' then addr[1..]
    else BehindColon(addr[1..])
  }

  function PortOf(addr: Address): int {
    Atoi(BehindColon(addr))
  }

  /** `atoi`: blanks, a sign and the number behind them. */
  function Atoi(s: string): int {
    var t := SkipBlanks(s);
    if t != "" && t[0] == '-' then -(LeadingNumber(t[1..], 0) as int)
    else if t != "" && t[0] == '+' then LeadingNumber(t[1..], 0)
    else LeadingNumber(t, 0)
  }

  function LeadingNumber(s: string, value: nat): nat
    decreases |s|
  {
    if s == "" || !IsDigit(s[0]) then value
    else LeadingNumber(s[1..], 10 * value + (s[0] as int - '0' as int))
  }

  // ---- Ports as they are configured ----

  lemma {:induction false} BehindColonIs(ip: string, rest: string)
    requires ':' !in ip
    ensures BehindColon(ip + ":" + rest) == rest
  {
    var s := ip + ":" + rest;
    assert s[|ip|] == ':';
    if ip == "" {
      assert s[1..] == rest;
    } else {
      assert s[1..] == ip[1..] + ":" + rest;
      BehindColonIs(ip[1..], rest);
    }
  }

  lemma {:induction false} LeadingDigits(digits: string, value: nat)
    requires AllDigits(digits)
    ensures LeadingNumber(digits, value) == value * Power(|digits|) + ParseDec(digits)
    decreases |digits|
  {
    if digits != "" {
      var last := |digits| - 1;
      var v := 10 * value + (digits[0] as int - '0' as int);
      LeadingDigits(digits[1..], v);
      FirstDigit(digits);
      PowerStep(value, digits[0] as int - '0' as int, last);
    }
  }

  function Power(n: nat): nat {
    if n == 0 then 1 else 10 * Power(n - 1)
  }

  lemma PowerStep(value: nat, digit: nat, n: nat)
    ensures (10 * value + digit) * Power(n) == value * Power(n + 1) + digit * Power(n)
  {
    assert value * (10 * Power(n)) == 10 * value * Power(n);
  }

  lemma LastDigit(digits: string)
    requires AllDigits(digits) && digits != ""
    ensures var last := |digits| - 1;
            ParseDec(digits) == 10 * ParseDec(digits[..last]) + (digits[last] as int - '0' as int)
  {
  }

  lemma TenTimes(digit: nat, power: nat)
    ensures digit * (10 * power) == 10 * (digit * power)
  {
  }

  lemma {:induction false} FirstDigit(digits: string)
    requires AllDigits(digits) && digits != ""
    ensures ParseDec(digits) == (digits[0] as int - '0' as int) * Power(|digits| - 1) + ParseDec(digits[1..])
    decreases |digits|
  {
    var last := |digits| - 1;
    LastDigit(digits);
    if last > 0 {
      var front := digits[..last];
      FirstDigit(front);
      LastDigit(digits[1..]);
      assert digits[1..][..last - 1] == front[1..];
      assert Power(last) == 10 * Power(last - 1);
      hide Power, ParseDec;
      TenTimes(digits[0] as int - '0' as int, Power(last - 1));
    } else {
      assert digits[..0] == "" && digits[1..] == "";
    }
  }

  /** The port of an address is the number that its name ends in. */
  lemma PortIsNumber(ip: string, port: nat)
    requires ':' !in ip
    ensures PortOf(ip + ":" + Dec(port)) == port
  {
    BehindColonIs(ip, Dec(port));
    assert IsDigit(Dec(port)[0]);
    LeadingDigits(Dec(port), 0);
    DecRoundTrip(port);
  }

  /** The master's three lists and the flags of the node processes. */
  datatype Cluster = Cluster(
    backends: seq<Backend>,
    alive: seq<Backend>,
    dead: seq<Backend>,
    roles: map<Address, Role>)

  // ---- Searching a list ----

  datatype Query = ByName(addr: Address) | ByNameAndState(name: Address, state: BackendState) | ByFd(fd: int)

  predicate Hits(q: Query, b: Backend) {
    match q
    case ByName(addr) => b.addr == addr
    case ByNameAndState(name, state) => b.addr == name && b.state == state
    case ByFd(fd) => b.fd == fd
  }

  /** The first hit, or the length of the list. */
  function First(bs: seq<Backend>, q: Query): (n: nat)
    ensures n <= |bs|
    ensures n < |bs| ==> Hits(q, bs[n])
    ensures forall i :: 0 <= i < n ==> !Hits(q, bs[i])
  {
    if bs == [] || Hits(q, bs[0]) then 0 else 1 + First(bs[1..], q)
  }

  method Find(bs: seq<Backend>, q: Query) returns (n: nat)
    ensures n == First(bs, q)
  {
    n := 0;
    assert bs[0..] == bs;
    while n < |bs| && !Hits(q, bs[n])
      invariant n <= |bs| && First(bs, q) == n + First(bs[n..], q)
    {
      assert bs[n..][1..] == bs[n + 1..];
      n := n + 1;
    }
  }

  // ---- Groups ----

  /** `get_group_id(addr)`; the cast of -1 for an unknown address is its own group. */
  function GroupOf(bs: seq<Backend>, addr: Address): nat {
    var n := First(bs, ByName(addr));
    if n < |bs| then bs[n].group else 0xffff_ffff
  }

  /** The alive addresses of a group, in the master's order. */
  function Members(alive: seq<Backend>, group: nat): seq<Address> {
    if alive == [] then []
    else (if alive[0].group == group then [alive[0].addr] else []) + Members(alive[1..], group)
  }

  /** What `get_primary` returns for a user of this group. */
  function PrimaryOf(alive: seq<Backend>, group: nat): Option<Address> {
    if alive == [] then None
    else if alive[0].group == group then Some(alive[0].addr)
    else PrimaryOf(alive[1..], group)
  }

  lemma {:induction false} PrimaryIsFirstMember(alive: seq<Backend>, group: nat)
    ensures PrimaryOf(alive, group) == if Members(alive, group) == [] then None else Some(Members(alive, group)[0])
  {
    if alive != [] {
      PrimaryIsFirstMember(alive[1..], group);
    }
  }

  function PortsOf(addrs: seq<Address>): (ports: seq<int>)
    ensures |ports| == |addrs| && forall i :: 0 <= i < |addrs| ==> ports[i] == PortOf(addrs[i])
  {
    seq(|addrs|, i requires 0 <= i < |addrs| => PortOf(addrs[i]))
  }

  /** `broadcast_group_addr`, delivered: every listed process handles CLUSTER. */
  function Broadcast(roles: map<Address, Role>, addrs: seq<Address>): map<Address, Role> {
    map a | a in roles ::
      if a in addrs then OnCluster(roles[a], PortOf(a), PortsOf(addrs)) else roles[a]
  }

  // ---- Events ----

  datatype Event =
    | Register(addr: Address, fd: int)  // a started process connects
    | Kill(addr: Address)               // from the admin console
    | Restart(addr: Address)
    | Lose(fd: int)                     // a connection breaks: the process is gone

  function RemoveAt(bs: seq<Backend>, n: nat): seq<Backend>
    requires n < |bs|
  {
    bs[..n] + bs[n + 1..]
  }

  /** `kill_backend` (master/monitor.h:110-139). */
  function KillBackend(c: Cluster, addr: Address): (Cluster, bool) {
    var k, n := First(c.backends, ByNameAndState(addr, Alive)), First(c.alive, ByName(addr));
    var d := c.(backends := if k < |c.backends| then c.backends[k := c.backends[k].(state := Dead)] else c.backends);
    if n == |c.alive| then (d, false)
    else
      var alive := RemoveAt(c.alive, n);
      var roles := Broadcast(c.roles, Members(alive, GroupOf(d.backends, addr)));
      (d.(alive := alive, dead := c.dead + [c.alive[n].(state := Dead)],
          roles := if addr in roles then roles[addr := OnKill(roles[addr])] else roles), true)
  }

  /** `restart_backend` (master/monitor.h:142-171). */
  function RestartBackend(c: Cluster, addr: Address): (Cluster, bool) {
    var q := ByNameAndState(addr, Dead);
    var k, n := First(c.backends, q), First(c.dead, q);
    var d := c.(backends := if k < |c.backends| then c.backends[k := c.backends[k].(state := Alive)] else c.backends);
    if n == |c.dead| then (d, false)
    else
      var alive := c.alive + [c.dead[n].(state := Alive)];
      var roles := Broadcast(c.roles, Members(alive, GroupOf(d.backends, addr)));
      (d.(alive := alive, dead := RemoveAt(c.dead, n),
          roles := if addr in roles then roles[addr := OnRestart(roles[addr])] else roles), true)
  }

  /** `delete_backend_fd` (master/monitor.h:174-205). */
  function DeleteBackendFd(c: Cluster, fd: int): (Cluster, bool) {
    var k, n, l := First(c.backends, ByFd(fd)), First(c.alive, ByFd(fd)), First(c.dead, ByFd(fd));
    var d := c.(backends := if k < |c.backends| then c.backends[k := c.backends[k].(fd := -1, state := Crash)]
                            else c.backends);
    if n < |c.alive| then
      var alive := RemoveAt(c.alive, n);
      (d.(alive := alive, dead := c.dead + [c.alive[n].(fd := -1, state := Crash)],
          roles := Broadcast(c.roles, Members(alive, GroupOf(d.backends, c.alive[n].addr)))), true)
    else if l < |c.dead| then
      (d.(dead := c.dead[l := c.dead[l].(fd := -1, state := Crash)]), true)
    else (d, false)
  }

  /** `set_backend_fd` (master/monitor.h:208-228). */
  function SetBackendFd(c: Cluster, addr: Address, fd: int): (Cluster, bool) {
    var k, n := First(c.backends, ByName(addr)), First(c.dead, ByName(addr));
    var d := c.(backends := if k < |c.backends| then c.backends[k := c.backends[k].(fd := fd, state := Alive)]
                            else c.backends);
    if n == |c.dead| then (d, false)
    else
      var alive := c.alive + [c.dead[n].(fd := fd, state := Alive)];
      (d.(alive := alive, dead := RemoveAt(c.dead, n),
          roles := Broadcast(c.roles, Members(alive, GroupOf(d.backends, addr)))), true)
  }

  /** A process that starts or ends loses its flags. */
  function Forget(c: Cluster, addr: Address): Cluster {
    if addr in c.roles then c.(roles := c.roles[addr := STARTED]) else c
  }

  function ForgetFd(c: Cluster, fd: int): Cluster {
    var k := First(c.backends, ByFd(fd));
    if k < |c.backends| then Forget(c, c.backends[k].addr) else c
  }

  function Apply(c: Cluster, e: Event): Cluster {
    match e
    case Register(addr, fd) => SetBackendFd(Forget(c, addr), addr, fd).0
    case Kill(addr) => KillBackend(c, addr).0
    case Restart(addr) => RestartBackend(c, addr).0
    case Lose(fd) => DeleteBackendFd(ForgetFd(c, fd), fd).0
  }

  // ---- The invariant ----

  ghost predicate Distinct(bs: seq<Backend>) {
    forall i, j :: 0 <= i < j < |bs| ==> bs[i].addr != bs[j].addr
  }

  /** Two backends of one group never share a port. */
  ghost predicate PortsDiffer(bs: seq<Backend>) {
    forall i, j :: 0 <= i < j < |bs| && bs[i].group == bs[j].group ==> PortOf(bs[i].addr) != PortOf(bs[j].addr)
  }

  /** A backend that is alive or killed is connected; open descriptors differ. */
  ghost predicate FdsOk(bs: seq<Backend>) {
    && (forall b :: b in bs ==> (b.state == Crash <==> b.fd == -1))
    && (forall i, j :: 0 <= i < j < |bs| && bs[i].fd != -1 ==> bs[i].fd != bs[j].fd)
  }

  /** The two lists partition the backends, and hold each in its current state. */
  ghost predicate Partition(c: Cluster) {
    && Distinct(c.alive + c.dead)
    && (forall b :: b in c.backends <==> b in c.alive || b in c.dead)
    && (forall b :: b in c.alive ==> b.state == Alive)
    && (forall b :: b in c.dead ==> b.state != Alive)
  }

  function RoleOf(roles: map<Address, Role>, addr: Address): Role {
    if addr in roles then roles[addr] else STARTED
  }

  /** A node regards itself as primary exactly when it is the first alive one of its
      group; a node is killed exactly when the master took it down. */
  ghost predicate RolesOk(alive: seq<Backend>, dead: seq<Backend>, roles: map<Address, Role>) {
    && (forall b :: b in alive ==>
          b.addr in roles && roles[b.addr] == Role(PrimaryOf(alive, b.group) == Some(b.addr), false))
    && (forall b :: b in dead ==> b.addr in roles && roles[b.addr] == Role(false, b.state == Dead))
  }

  ghost predicate Ok(c: Cluster) {
    && Distinct(c.backends) && PortsDiffer(c.backends) && FdsOk(c.backends)
    && Partition(c) && RolesOk(c.alive, c.dead, c.roles)
  }

  // ---- Lists ----

  lemma {:induction false} MemberOfGroup(alive: seq<Backend>, group: nat, addr: Address)
    ensures addr in Members(alive, group) <==> exists b :: b in alive && b.addr == addr && b.group == group
  {
    if alive != [] {
      MemberOfGroup(alive[1..], group, addr);
      assert forall b :: b in alive <==> b == alive[0] || b in alive[1..];
    }
  }

  lemma {:induction false} PrimaryIsAlive(alive: seq<Backend>, group: nat)
    requires PrimaryOf(alive, group).Some?
    ensures exists b :: b in alive && b.group == group && PrimaryOf(alive, group) == Some(b.addr)
  {
    if alive[0].group == group {
      assert alive[0] in alive;
    } else {
      PrimaryIsAlive(alive[1..], group);
    }
  }

  lemma {:induction false} PrimaryOfAppended(alive: seq<Backend>, b: Backend, group: nat)
    ensures PrimaryOf(alive + [b], group) ==
            if PrimaryOf(alive, group).Some? then PrimaryOf(alive, group)
            else if b.group == group then Some(b.addr) else None
  {
    if alive == [] {
      assert alive + [b] == [b];
    } else {
      assert (alive + [b])[1..] == alive[1..] + [b];
      PrimaryOfAppended(alive[1..], b, group);
    }
  }

  /** Removing a node can only hand the primary role on; it never takes it away. */
  lemma {:induction false} PrimaryOfRemaining(alive: seq<Backend>, n: nat, group: nat)
    requires n < |alive| && Distinct(alive)
    ensures alive[n].group != group || PrimaryOf(alive, group) != Some(alive[n].addr) ==>
              PrimaryOf(RemoveAt(alive, n), group) == PrimaryOf(alive, group)
  {
    if n > 0 {
      assert RemoveAt(alive, n)[1..] == RemoveAt(alive[1..], n - 1);
      assert RemoveAt(alive, n)[0] == alive[0];
      PrimaryOfRemaining(alive[1..], n - 1, group);
    } else {
      assert RemoveAt(alive, n) == alive[1..];
    }
  }

  lemma InRemaining(bs: seq<Backend>, n: nat, b: Backend)
    requires n < |bs| && Distinct(bs)
    ensures b in RemoveAt(bs, n) <==> b in bs && b != bs[n]
  {
    if b in bs && b != bs[n] {
      var i :| 0 <= i < |bs| && bs[i] == b;
      assert RemoveAt(bs, n)[if i < n then i else i - 1] == b;
    }
    if b in RemoveAt(bs, n) {
      var i :| 0 <= i < |bs| - 1 && RemoveAt(bs, n)[i] == b;
      assert b == bs[if i < n then i else i + 1];
    }
  }

  lemma InUpdated(bs: seq<Backend>, k: nat, b': Backend, b: Backend)
    requires k < |bs| && Distinct(bs) && b'.addr == bs[k].addr
    ensures b in bs[k := b'] <==> b == b' || (b in bs && b != bs[k])
  {
    if b in bs && b != bs[k] {
      var i :| 0 <= i < |bs| && bs[i] == b;
      assert bs[k := b'][i] == b;
    }
    if b == b' {
      assert bs[k := b'][k] == b;
    }
  }

  lemma SameAddress(bs: seq<Backend>, a: Backend, b: Backend)
    requires Distinct(bs) && a in bs && b in bs && a.addr == b.addr
    ensures a == b
  {
  }

  lemma FoundIs(bs: seq<Backend>, q: Query, b: Backend)
    requires b in bs && Hits(q, b)
    requires forall a :: a in bs && Hits(q, a) ==> a == b
    ensures First(bs, q) < |bs| && bs[First(bs, q)] == b
  {
    var i :| 0 <= i < |bs| && bs[i] == b;
  }

  // ---- Delivered broadcasts ----

  /** Among the members of a group only the first recognises its port. */
  lemma BroadcastRole(bs: seq<Backend>, alive: seq<Backend>, group: nat, b: Backend, roles: map<Address, Role>)
    requires Distinct(bs) && PortsDiffer(bs) && b in alive && b.group == group && b.addr in roles
    requires forall a :: a in alive ==> exists a' :: a' in bs && a'.addr == a.addr && a'.group == a.group
    ensures Broadcast(roles, Members(alive, group))[b.addr] ==
            roles[b.addr].(isPrimary := roles[b.addr].isPrimary || PrimaryOf(alive, group) == Some(b.addr))
  {
    MemberOfGroup(alive, group, b.addr);
    PrimaryIsFirstMember(alive, group);
    PrimaryIsAlive(alive, group);
    var first := Members(alive, group)[0];
    var f :| f in alive && f.group == group && PrimaryOf(alive, group) == Some(f.addr);
    assert first == f.addr;
    if PortOf(b.addr) == PortOf(first) {
      var i :| 0 <= i < |bs| && bs[i].addr == b.addr && bs[i].group == group;
      var j :| 0 <= j < |bs| && bs[j].addr == first && bs[j].group == group;
      assert i == j;
    }
  }

  lemma OtherRole(alive: seq<Backend>, group: nat, addr: Address, roles: map<Address, Role>)
    requires addr in roles && forall b :: b in alive && b.addr == addr ==> b.group != group
    ensures Broadcast(roles, Members(alive, group))[addr] == roles[addr]
  {
    MemberOfGroup(alive, group, addr);
  }

  // ---- One backend changes its state ----

  ghost predicate SameNode(b: Backend, b': Backend) {
    b'.addr == b.addr && b'.group == b.group && (b'.state == Crash <==> b'.fd == -1)
  }

  lemma BackendsAfter(bs: seq<Backend>, k: nat, b': Backend)
    requires Distinct(bs) && PortsDiffer(bs) && FdsOk(bs) && k < |bs| && SameNode(bs[k], b')
    requires b'.fd == -1 || b'.fd == bs[k].fd || forall b :: b in bs ==> b.fd != b'.fd
    ensures Distinct(bs[k := b']) && PortsDiffer(bs[k := b']) && FdsOk(bs[k := b'])
  {
    var after := bs[k := b'];
    forall b | b in after ensures b.state == Crash <==> b.fd == -1 {
      InUpdated(bs, k, b', b);
    }
    forall i, j | 0 <= i < j < |after| && after[i].fd != -1 ensures after[i].fd != after[j].fd {
      assert i != k ==> after[i] == bs[i] && bs[i] in bs;
      assert j != k ==> after[j] == bs[j] && bs[j] in bs;
    }
  }

  lemma DistinctParts(a: seq<Backend>, b: seq<Backend>)
    ensures Distinct(a + b) <==> Distinct(a) && Distinct(b) && forall x, y :: x in a && y in b ==> x.addr != y.addr
  {
    if Distinct(a + b) {
      forall i, j | 0 <= i < j < |a| ensures a[i].addr != a[j].addr {
        assert (a + b)[i] == a[i] && (a + b)[j] == a[j];
      }
      forall i, j | 0 <= i < j < |b| ensures b[i].addr != b[j].addr {
        assert (a + b)[|a| + i] == b[i] && (a + b)[|a| + j] == b[j];
      }
      forall x, y | x in a && y in b ensures x.addr != y.addr {
        var i :| 0 <= i < |a| && a[i] == x;
        var j :| 0 <= j < |b| && b[j] == y;
        assert (a + b)[i] == x && (a + b)[|a| + j] == y;
      }
    }
    if Distinct(a) && Distinct(b) && forall x, y :: x in a && y in b ==> x.addr != y.addr {
      forall i, j | 0 <= i < j < |a + b| ensures (a + b)[i].addr != (a + b)[j].addr {
        if i < |a| <= j {
          assert a[i] in a && b[j - |a|] in b;
        }
      }
    }
  }

  lemma DistinctRemaining(bs: seq<Backend>, n: nat)
    requires n < |bs| && Distinct(bs)
    ensures Distinct(RemoveAt(bs, n))
  {
  }

  lemma DistinctAppended(bs: seq<Backend>, b: Backend)
    requires Distinct(bs) && forall x :: x in bs ==> x.addr != b.addr
    ensures Distinct(bs + [b])
  {
  }

  /** An entry moves from one list to the other, as `b'`. */
  lemma Moves(from: seq<Backend>, to: seq<Backend>, n: nat, b': Backend)
    requires n < |from| && b'.addr == from[n].addr && Distinct(from + to)
    ensures Distinct(RemoveAt(from, n) + (to + [b'])) && Distinct((to + [b']) + RemoveAt(from, n))
    ensures forall b :: b in RemoveAt(from, n) <==> b in from && b != from[n]
    ensures forall b :: b in to + [b'] <==> b in to || b == b'
  {
    DistinctParts(from, to);
    DistinctRemaining(from, n);
    forall b ensures b in RemoveAt(from, n) <==> b in from && b != from[n] { InRemaining(from, n, b); }
    assert from[n] in from;
    DistinctAppended(to, b');
    forall x, y | x in RemoveAt(from, n) && y in to + [b'] ensures x.addr != y.addr {
      if y == b' && x.addr == b'.addr {
        SameAddress(from, x, from[n]);
      }
    }
    DistinctParts(RemoveAt(from, n), to + [b']);
    DistinctParts(to + [b'], RemoveAt(from, n));
  }

  lemma PartitionAfter(c: Cluster, k: nat, b': Backend, alive: seq<Backend>, dead: seq<Backend>,
                       roles: map<Address, Role>)
    requires Distinct(c.backends) && Partition(c) && k < |c.backends| && b'.addr == c.backends[k].addr
    requires Distinct(alive + dead)
    requires forall b :: b in alive || b in dead <==> b == b' || ((b in c.alive || b in c.dead) && b != c.backends[k])
    requires forall b :: b in alive ==> b.state == Alive
    requires forall b :: b in dead ==> b.state != Alive
    ensures Partition(Cluster(c.backends[k := b'], alive, dead, roles))
  {
    forall b ensures b in c.backends[k := b'] <==> b in alive || b in dead { InUpdated(c.backends, k, b', b); }
  }

  lemma KnownNodes(c: Cluster, alive: seq<Backend>)
    requires Partition(c)
    requires forall a :: a in alive ==> exists b :: (b in c.alive || b in c.dead) && SameNode(b, a)
    ensures forall a :: a in alive ==> exists a' :: a' in c.backends && a'.addr == a.addr && a'.group == a.group
  {
    forall a | a in alive ensures exists a' :: a' in c.backends && a'.addr == a.addr && a'.group == a.group {
      var b :| (b in c.alive || b in c.dead) && SameNode(b, a);
      assert b in c.backends;
    }
  }

  /** An alive backend leaves: the others of its group are told, and its own process is
      killed or gone. */
  lemma Leaves(c: Cluster, n: nat, k: nat, b': Backend, r: Role, roles: map<Address, Role>)
    requires Ok(c) && n < |c.alive| && k < |c.backends| && c.backends[k] == c.alive[n]
    requires SameNode(c.alive[n], b') && b'.state != Alive && (b'.fd == -1 || b'.fd == c.alive[n].fd)
    requires var alive := RemoveAt(c.alive, n); var b := c.alive[n];
             roles == Broadcast(c.roles[b.addr := r], Members(alive, b.group))[b.addr := Role(false, b'.state == Dead)]
    ensures Ok(Cluster(c.backends[k := b'], RemoveAt(c.alive, n), c.dead + [b'], roles))
  {
    var b, alive, dead := c.alive[n], RemoveAt(c.alive, n), c.dead + [b'];
    BackendsAfter(c.backends, k, b');
    Moves(c.alive, c.dead, n, b');
    PartitionAfter(c, k, b', alive, dead, roles);
    RolesAfterLeaving(c, n, b', r, roles);
  }

  lemma RolesAfterLeaving(c: Cluster, n: nat, b': Backend, r: Role, roles: map<Address, Role>)
    requires Ok(c) && n < |c.alive| && SameNode(c.alive[n], b') && b'.state != Alive
    requires var alive := RemoveAt(c.alive, n); var b := c.alive[n];
             roles == Broadcast(c.roles[b.addr := r], Members(alive, b.group))[b.addr := Role(false, b'.state == Dead)]
    ensures RolesOk(RemoveAt(c.alive, n), c.dead + [b'], roles)
  {
    var b, alive, dead := c.alive[n], RemoveAt(c.alive, n), c.dead + [b'];
    var before := c.roles[b.addr := r];
    Moves(c.alive, c.dead, n, b');
    DistinctParts(c.alive, c.dead);
    DistinctParts(alive, dead);
    assert b' in dead;
    forall x | x in alive
      ensures x.addr in roles && roles[x.addr] == Role(PrimaryOf(alive, x.group) == Some(x.addr), false)
    {
      PrimaryOfRemaining(c.alive, n, x.group);
      if x.group == b.group {
        assert forall a :: a in alive ==> a in c.backends;
        BroadcastRole(c.backends, alive, b.group, x, before);
      } else {
        OnlyInGroup(c.alive, alive, x);
        OtherRole(alive, b.group, x.addr, before);
      }
    }
    forall x | x in dead ensures x.addr in roles && roles[x.addr] == Role(false, x.state == Dead) {
      if x != b' {
        OtherRole(alive, b.group, x.addr, before);
      }
    }
  }

  lemma OnlyInGroup(all: seq<Backend>, alive: seq<Backend>, x: Backend)
    requires Distinct(all) && x in all && forall a :: a in alive ==> a in all
    ensures forall a :: a in alive && a.addr == x.addr ==> a.group == x.group
  {
  }

  /** A backend becomes alive, last in the list: it is primary only of an otherwise
      empty group. */
  lemma Joins(c: Cluster, n: nat, k: nat, b': Backend, killed: bool, roles: map<Address, Role>)
    requires Ok(c) && n < |c.dead| && k < |c.backends| && c.backends[k] == c.dead[n]
    requires SameNode(c.dead[n], b') && b'.state == Alive
    requires b'.fd == c.dead[n].fd || forall b :: b in c.backends ==> b.fd != b'.fd
    requires var alive := c.alive + [b']; var addr := b'.addr;
             var all := Broadcast(c.roles[addr := Role(false, killed)], Members(alive, b'.group));
             addr in all && roles == all[addr := OnRestart(all[addr])]
    ensures Ok(Cluster(c.backends[k := b'], c.alive + [b'], RemoveAt(c.dead, n), roles))
  {
    var b, alive, dead := c.dead[n], c.alive + [b'], RemoveAt(c.dead, n);
    BackendsAfter(c.backends, k, b');
    DistinctParts(c.alive, c.dead);
    DistinctParts(c.dead, c.alive);
    Moves(c.dead, c.alive, n, b');
    PartitionAfter(c, k, b', alive, dead, roles);
    RolesAfterJoining(c, n, b', killed, roles);
  }

  ghost predicate JoinedRoles(c: Cluster, n: nat, b': Backend, killed: bool, roles: map<Address, Role>) {
    && n < |c.dead| && SameNode(c.dead[n], b') && b'.state == Alive
    && var alive := c.alive + [b']; var addr := b'.addr;
       var all := Broadcast(c.roles[addr := Role(false, killed)], Members(alive, b'.group));
       addr in all && roles == all[addr := OnRestart(all[addr])]
  }

  lemma JoinedParts(c: Cluster, n: nat, b': Backend)
    requires Ok(c) && n < |c.dead| && SameNode(c.dead[n], b')
    ensures Distinct(c.alive + [b']) && (forall a :: a in c.alive ==> a.addr != b'.addr)
    ensures forall x :: x in RemoveAt(c.dead, n) ==> x in c.dead && forall a :: a in c.alive + [b'] ==> a.addr != x.addr
    ensures forall a :: a in c.alive + [b'] ==>
              exists a' :: a' in c.backends && a'.addr == a.addr && a'.group == a.group
  {
    var alive, dead := c.alive + [b'], RemoveAt(c.dead, n);
    DistinctParts(c.alive, c.dead);
    DistinctParts(c.dead, c.alive);
    Moves(c.dead, c.alive, n, b');
    DistinctParts(alive, dead);
    assert c.dead[n] in c.dead;
    KnownNodes(c, alive);
  }

  lemma JoinedAlive(c: Cluster, n: nat, b': Backend, killed: bool, roles: map<Address, Role>, x: Backend)
    requires Ok(c) && JoinedRoles(c, n, b', killed, roles) && x in c.alive + [b']
    ensures x.addr in roles && roles[x.addr] == Role(PrimaryOf(c.alive + [b'], x.group) == Some(x.addr), false)
  {
    var alive, before := c.alive + [b'], c.roles[b'.addr := Role(false, killed)];
    JoinedParts(c, n, b');
    KeysOfBroadcast(before, Members(alive, b'.group));
    PrimaryAfterJoining(c, b', x);
    hide Broadcast, PortsDiffer, Members, Partition, FdsOk;
    if x.group == b'.group {
      BroadcastRole(c.backends, alive, b'.group, x, before);
    } else {
      OnlyInGroup(alive, alive, x);
      OtherRole(alive, b'.group, x.addr, before);
    }
  }

  lemma JoinedDead(c: Cluster, n: nat, b': Backend, killed: bool, roles: map<Address, Role>, x: Backend)
    requires Ok(c) && JoinedRoles(c, n, b', killed, roles) && x in RemoveAt(c.dead, n)
    ensures x.addr in roles && roles[x.addr] == Role(false, x.state == Dead)
  {
    var alive, before := c.alive + [b'], c.roles[b'.addr := Role(false, killed)];
    JoinedParts(c, n, b');
    KeysOfBroadcast(before, Members(alive, b'.group));
    assert b' in alive;
    hide Broadcast, PortsDiffer, Members, Partition, FdsOk;
    OtherRole(alive, b'.group, x.addr, before);
  }

  lemma RolesAfterJoining(c: Cluster, n: nat, b': Backend, killed: bool, roles: map<Address, Role>)
    requires Ok(c) && n < |c.dead| && JoinedRoles(c, n, b', killed, roles)
    ensures RolesOk(c.alive + [b'], RemoveAt(c.dead, n), roles)
  {
    hide Ok, JoinedRoles;
    forall x | x in c.alive + [b']
      ensures x.addr in roles && roles[x.addr] == Role(PrimaryOf(c.alive + [b'], x.group) == Some(x.addr), false)
    {
      JoinedAlive(c, n, b', killed, roles, x);
    }
    forall x | x in RemoveAt(c.dead, n) ensures x.addr in roles && roles[x.addr] == Role(false, x.state == Dead) {
      JoinedDead(c, n, b', killed, roles, x);
    }
  }

  lemma PrimaryAfterJoining(c: Cluster, b': Backend, x: Backend)
    requires forall a :: a in c.alive ==> a.addr != b'.addr
    requires x in c.alive || x == b'
    ensures PrimaryOf(c.alive + [b'], x.group) == Some(x.addr) <==>
            || PrimaryOf(c.alive, x.group) == Some(x.addr)
            || (PrimaryOf(c.alive, x.group).None? && x.group == b'.group && x.addr == b'.addr)
    ensures x.group != b'.group ==> PrimaryOf(c.alive + [b'], x.group) == PrimaryOf(c.alive, x.group)
    ensures x == b' ==> PrimaryOf(c.alive, x.group) != Some(x.addr)
  {
    PrimaryOfAppended(c.alive, b', x.group);
    if PrimaryOf(c.alive, x.group).Some? {
      PrimaryIsAlive(c.alive, x.group);
    }
  }

  // ---- Events keep the invariant ----

  /** What the environment guarantees: a process registers only while its backend is not
      alive, over a new descriptor, and descriptors are not negative. */
  ghost predicate EventOk(c: Cluster, e: Event) {
    match e
    case Register(addr, fd) =>
      && fd >= 0 && (forall b :: b in c.backends ==> b.fd != fd)
      && (forall b :: b in c.alive ==> b.addr != addr)
    case Lose(fd) => fd >= 0
    case _ => true
  }

  lemma KillKeepsOk(c: Cluster, addr: Address)
    requires Ok(c)
    ensures Ok(KillBackend(c, addr).0)
  {
    var n, q := First(c.alive, ByName(addr)), ByNameAndState(addr, Alive);
    if n < |c.alive| {
      var b := c.alive[n];
      assert b in c.alive;
      FoundIs(c.backends, q, b);
      var k, b' := First(c.backends, q), b.(state := Dead);
      var alive := RemoveAt(c.alive, n);
      SameGroupAfter(c.backends, k, b');
      assert c.roles[addr := c.roles[addr]] == c.roles;
      var r := KillBackend(c, addr).0.roles;
      DistinctParts(c.alive, c.dead);
      Moves(c.alive, c.dead, n, b');
      OtherRole(alive, b.group, addr, c.roles);
      assert KillBackend(c, addr).0 == Cluster(c.backends[k := b'], alive, c.dead + [b'], r);
      Leaves(c, n, k, b', c.roles[addr], r);
    } else {
      Absent(c.alive, ByName(addr));
      Absent(c.backends, q);
    }
  }

  lemma Absent(bs: seq<Backend>, q: Query)
    ensures First(bs, q) == |bs| <==> forall b :: b in bs ==> !Hits(q, b)
  {
    if First(bs, q) < |bs| {
      assert bs[First(bs, q)] in bs;
    }
  }

  lemma SameGroupAfter(bs: seq<Backend>, k: nat, b': Backend)
    requires Distinct(bs) && k < |bs| && b'.addr == bs[k].addr && b'.group == bs[k].group
    ensures GroupOf(bs[k := b'], b'.addr) == b'.group
  {
    var after := bs[k := b'];
    assert after[k] == b' && b' in after;
    forall a | a in after && a.addr == b'.addr ensures a == b' {
      InUpdated(bs, k, b', a);
      if a != b' {
        SameAddress(bs, a, bs[k]);
      }
    }
    FoundIs(after, ByName(b'.addr), b');
  }

  lemma RestartKeepsOk(c: Cluster, addr: Address)
    requires Ok(c)
    ensures Ok(RestartBackend(c, addr).0)
  {
    hide Members, PrimaryOf, PortsDiffer, Broadcast;
    var q := ByNameAndState(addr, Dead);
    var n := First(c.dead, q);
    if n < |c.dead| {
      var b := c.dead[n];
      assert b in c.dead;
      FoundIs(c.backends, q, b);
      var k, b' := First(c.backends, q), b.(state := Alive);
      SameGroupAfter(c.backends, k, b');
      assert c.roles[addr := Role(false, true)] == c.roles;
      var t := RestartBackend(c, addr).0;
      assert t == Cluster(c.backends[k := b'], c.alive + [b'], RemoveAt(c.dead, n), t.roles);
      KeysOfBroadcast(c.roles, Members(c.alive + [b'], b'.group));
      Joins(c, n, k, b', true, t.roles);
    } else {
      Absent(c.dead, q);
      Absent(c.backends, q);
    }
  }

  /** What registering a dead backend gives. */
  lemma RegisteredState(c: Cluster, addr: Address, fd: int)
    requires Distinct(c.backends) && First(c.dead, ByName(addr)) < |c.dead| && addr in c.roles
    requires c.dead[First(c.dead, ByName(addr))] in c.backends
    ensures var n, k := First(c.dead, ByName(addr)), First(c.backends, ByName(addr));
            var b' := c.dead[n].(fd := fd, state := Alive);
            var roles := Broadcast(c.roles[addr := Role(false, false)], Members(c.alive + [b'], b'.group));
            && k < |c.backends| && c.backends[k] == c.dead[n]
            && SetBackendFd(Forget(c, addr), addr, fd).0 ==
               Cluster(c.backends[k := b'], c.alive + [b'], RemoveAt(c.dead, n), roles)
  {
    hide Members, Broadcast;
    var n, q := First(c.dead, ByName(addr)), ByName(addr);
    var b := c.dead[n];
    forall a | a in c.backends && Hits(q, a) ensures a == b { SameAddress(c.backends, a, b); }
    FoundIs(c.backends, q, b);
    SameGroupAfter(c.backends, First(c.backends, q), b.(fd := fd, state := Alive));
  }

  /** The CLUSTER message leaves the flag `killed` alone, so a started process needs no
      RESTART. */
  lemma NotKilled(roles: map<Address, Role>, addrs: seq<Address>, addr: Address)
    requires addr in roles && !roles[addr].killed
    ensures var all := Broadcast(roles, addrs); addr in all && all[addr := OnRestart(all[addr])] == all
  {
  }

  /** Registering starts a fresh process, whatever flags the last one had. */
  lemma RegisterKeepsOk(c: Cluster, addr: Address, fd: int)
    requires Ok(c) && EventOk(c, Register(addr, fd))
    ensures Ok(SetBackendFd(Forget(c, addr), addr, fd).0)
  {
    hide SetBackendFd, Broadcast, Members, PrimaryOf, PortsDiffer;
    var n := First(c.dead, ByName(addr));
    if n < |c.dead| {
      var b := c.dead[n];
      assert b in c.dead && b in c.backends;
      RegisteredState(c, addr, fd);
      var k, b' := First(c.backends, ByName(addr)), b.(fd := fd, state := Alive);
      var roles := Broadcast(c.roles[addr := Role(false, false)], Members(c.alive + [b'], b'.group));
      NotKilled(c.roles[addr := Role(false, false)], Members(c.alive + [b'], b'.group), addr);
      Joins(c, n, k, b', false, roles);
    } else {
      RegisterUnknown(c, addr, fd);
    }
  }

  lemma RegisterUnknown(c: Cluster, addr: Address, fd: int)
    requires Ok(c) && First(c.dead, ByName(addr)) == |c.dead| && forall b :: b in c.alive ==> b.addr != addr
    ensures Ok(SetBackendFd(Forget(c, addr), addr, fd).0)
  {
    Absent(c.dead, ByName(addr));
    Absent(c.backends, ByName(addr));
  }

  lemma CrashKeepsRoles(c: Cluster, l: nat, b': Backend)
    requires Ok(c) && l < |c.dead| && SameNode(c.dead[l], b') && b'.state == Crash
    ensures Distinct(c.alive + c.dead[l := b'])
    ensures RolesOk(c.alive, c.dead[l := b'], c.roles[b'.addr := STARTED])
    ensures forall b :: b in c.dead[l := b'] <==> b == b' || (b in c.dead && b != c.dead[l])
  {
    DistinctParts(c.alive, c.dead);
    forall b ensures b in c.dead[l := b'] <==> b == b' || (b in c.dead && b != c.dead[l]) {
      InUpdated(c.dead, l, b', b);
    }
    assert c.dead[l] in c.dead;
    DistinctParts(c.alive, c.dead[l := b']);
    var roles := c.roles[b'.addr := STARTED];
    forall b | b in c.dead[l := b'] ensures b.addr in roles && roles[b.addr] == Role(false, b.state == Dead) {
      if b != b' && b.addr == b'.addr {
        SameAddress(c.dead, b, c.dead[l]);
      }
    }
  }

  /** A lost connection means the process is gone: an alive backend leaves its group, a
      killed one merely becomes crashed. */
  lemma LoseKeepsOk(c: Cluster, fd: int)
    requires Ok(c) && fd >= 0
    ensures Ok(DeleteBackendFd(ForgetFd(c, fd), fd).0)
  {
    hide Broadcast, Members, PrimaryOf, PortsDiffer;
    var q := ByFd(fd);
    var n, l, k := First(c.alive, q), First(c.dead, q), First(c.backends, q);
    if n < |c.alive| {
      assert c.alive[n] in c.alive && c.alive[n] in c.backends;
      FdFound(c.backends, fd, c.alive[n]);
      LoseAlive(c, fd, n, k);
    } else if l < |c.dead| {
      var b := c.dead[l];
      assert b in c.dead && b in c.backends;
      FdFound(c.backends, fd, b);
      var b' := b.(fd := -1, state := Crash);
      BackendsAfter(c.backends, k, b');
      CrashKeepsRoles(c, l, b');
      PartitionAfter(c, k, b', c.alive, c.dead[l := b'], c.roles[b.addr := STARTED]);
    } else {
      Absent(c.alive, q);
      Absent(c.dead, q);
      Absent(c.backends, q);
    }
  }

  lemma LoseAlive(c: Cluster, fd: int, n: nat, k: nat)
    requires Ok(c) && fd >= 0 && n == First(c.alive, ByFd(fd)) < |c.alive|
    requires k == First(c.backends, ByFd(fd)) < |c.backends| && c.backends[k] == c.alive[n]
    ensures Ok(DeleteBackendFd(ForgetFd(c, fd), fd).0)
  {
    hide Broadcast, Members, PrimaryOf, PortsDiffer;
    var b := c.alive[n];
    assert b in c.alive;
    var b' := b.(fd := -1, state := Crash);
    var alive := RemoveAt(c.alive, n);
    SameGroupAfter(c.backends, k, b');
    DistinctParts(c.alive, c.dead);
    Moves(c.alive, c.dead, n, b');
    var roles := Broadcast(c.roles[b.addr := STARTED], Members(alive, b.group));
    OtherRole(alive, b.group, b.addr, c.roles[b.addr := STARTED]);
    KeysOfBroadcast(c.roles[b.addr := STARTED], Members(alive, b.group));
    assert roles == roles[b.addr := STARTED];
    Leaves(c, n, k, b', STARTED, roles);
  }

  lemma KeysOfBroadcast(roles: map<Address, Role>, addrs: seq<Address>)
    ensures Broadcast(roles, addrs).Keys == roles.Keys
  {
  }

  lemma FdFound(bs: seq<Backend>, fd: int, b: Backend)
    requires FdsOk(bs) && fd >= 0 && b in bs && b.fd == fd
    ensures First(bs, ByFd(fd)) < |bs| && bs[First(bs, ByFd(fd))] == b
  {
    FoundIs(bs, ByFd(fd), b);
  }

  lemma EventKeepsOk(c: Cluster, e: Event)
    requires Ok(c) && EventOk(c, e)
    ensures Ok(Apply(c, e))
  {
    hide Ok, KillBackend, RestartBackend, DeleteBackendFd, SetBackendFd;
    match e
    case Register(addr, fd) => RegisterKeepsOk(c, addr, fd);
    case Kill(addr) => KillKeepsOk(c, addr);
    case Restart(addr) => RestartKeepsOk(c, addr);
    case Lose(fd) => LoseKeepsOk(c, fd);
  }

  /** What an event does to one configured backend. */
  function AfterEvent(e: Event, b: Backend): Backend {
    match e
    case Register(addr, fd) => if b.addr == addr then b.(fd := fd, state := Alive) else b
    case Kill(addr) => if b.addr == addr && b.state == Alive then b.(state := Dead) else b
    case Restart(addr) => if b.addr == addr && b.state == Dead then b.(state := Alive) else b
    case Lose(fd) => if b.fd == fd then b.(fd := -1, state := Crash) else b
  }

  lemma OnlyHit(bs: seq<Backend>, q: Query, i: nat)
    requires Distinct(bs) && FdsOk(bs) && i < |bs| && Hits(q, bs[i]) && (q.ByFd? ==> q.fd >= 0)
    ensures First(bs, q) == i
  {
  }

  function QueryOf(e: Event): Query {
    match e
    case Register(addr, fd) => ByName(addr)
    case Kill(addr) => ByNameAndState(addr, Alive)
    case Restart(addr) => ByNameAndState(addr, Dead)
    case Lose(fd) => ByFd(fd)
  }

  lemma BackendsOf(c: Cluster, e: Event)
    ensures var k := First(c.backends, QueryOf(e));
            Apply(c, e).backends ==
            if k < |c.backends| then c.backends[k := AfterEvent(e, c.backends[k])] else c.backends
  {
    hide Broadcast, Members, First;
    FirstHits(c.backends, QueryOf(e));
  }

  lemma FirstHits(bs: seq<Backend>, q: Query)
    ensures First(bs, q) < |bs| ==> Hits(q, bs[First(bs, q)])
  {
  }

  /** Every event changes exactly the backend it names, in the way it says; with the
      invariant this fixes which backends the two lists hold. */
  lemma EventTakesEffect(c: Cluster, e: Event)
    requires Ok(c) && EventOk(c, e)
    ensures var d := Apply(c, e);
            && Ok(d) && |d.backends| == |c.backends|
            && forall i :: 0 <= i < |c.backends| ==> d.backends[i] == AfterEvent(e, c.backends[i])
  {
    EventKeepsOk(c, e);
    BackendsOf(c, e);
    hide Partition, RolesOk, PortsDiffer, Apply, First;
    forall i | 0 <= i < |c.backends| ensures Apply(c, e).backends[i] == AfterEvent(e, c.backends[i]) {
      if Hits(QueryOf(e), c.backends[i]) {
        OnlyHit(c.backends, QueryOf(e), i);
      }
    }
  }

  /** What the event functions answer: whether the lists held such a backend. */
  lemma EventAnswers(c: Cluster, addr: Address, fd: int)
    ensures KillBackend(c, addr).1 <==> exists b :: b in c.alive && b.addr == addr
    ensures RestartBackend(c, addr).1 <==> exists b :: b in c.dead && b.addr == addr && b.state == Dead
    ensures DeleteBackendFd(c, fd).1 <==> exists b :: b in c.alive + c.dead && b.fd == fd
    ensures SetBackendFd(c, addr, fd).1 <==> exists b :: b in c.dead && b.addr == addr
  {
    hide Broadcast, Members;
    FirstExists(c.alive, ByName(addr));
    FirstExists(c.dead, ByNameAndState(addr, Dead));
    FirstExists(c.alive, ByFd(fd));
    FirstExists(c.dead, ByFd(fd));
    FirstExists(c.dead, ByName(addr));
  }

  lemma FirstExists(bs: seq<Backend>, q: Query)
    ensures First(bs, q) < |bs| <==> exists b :: b in bs && Hits(q, b)
  {
    if First(bs, q) < |bs| {
      assert bs[First(bs, q)] in bs;
    }
  }

  // ---- Main results ----

  /** Exactly one alive node of the group regards itself as primary, none that is dead
      does, and it is the one `get_primary` returns. */
  ghost predicate OnePrimary(c: Cluster, group: nat) {
    && (exists b :: b in c.alive && b.group == group && RoleOf(c.roles, b.addr) == Role(true, false))
    && (forall b :: b in c.alive && b.group == group ==>
          (RoleOf(c.roles, b.addr).isPrimary <==> PrimaryOf(c.alive, group) == Some(b.addr)))
    && (forall b :: b in c.dead ==> !RoleOf(c.roles, b.addr).isPrimary)
  }

  lemma SinglePrimary(c: Cluster, group: nat)
    requires Ok(c) && Members(c.alive, group) != []
    ensures OnePrimary(c, group)
  {
    PrimaryIsFirstMember(c.alive, group);
    PrimaryIsAlive(c.alive, group);
    var b :| b in c.alive && b.group == group && PrimaryOf(c.alive, group) == Some(b.addr);
    assert RoleOf(c.roles, b.addr) == Role(true, false);
  }

  ghost predicate IsAlive(c: Cluster, addr: Address) {
    exists b :: b in c.alive && b.addr == addr
  }

  /** A primary keeps its role until it is itself killed or lost, whatever else happens. */
  lemma NeverDemoted(c: Cluster, e: Event, group: nat, addr: Address)
    requires Ok(c) && EventOk(c, e)
    requires PrimaryOf(c.alive, group) == Some(addr) && IsAlive(Apply(c, e), addr)
    ensures PrimaryOf(Apply(c, e).alive, group) == Some(addr)
  {
    hide Ok;
    EventKeepsOk(c, e);
    OkIsDistinct(c);
    OkIsDistinct(Apply(c, e));
    var after := Apply(c, e).alive;
    match e
    case Kill(a) =>
      var n := First(c.alive, ByName(a));
      if n < |c.alive| {
        StillPrimary(c.alive, n, group, addr);
      }
    case Lose(fd) =>
      var n := First(c.alive, ByFd(fd));
      if n < |c.alive| {
        StillPrimary(c.alive, n, group, addr);
      }
    case _ =>
      if after != c.alive {
        assert after == c.alive + [after[|c.alive|]];
        PrimaryOfAppended(c.alive, after[|c.alive|], group);
      }
  }

  lemma OkIsDistinct(c: Cluster)
    requires Ok(c)
    ensures Distinct(c.alive)
  {
    DistinctParts(c.alive, c.dead);
  }

  lemma StillPrimary(alive: seq<Backend>, n: nat, group: nat, addr: Address)
    requires Distinct(alive) && n < |alive| && PrimaryOf(alive, group) == Some(addr)
    requires exists b :: b in RemoveAt(alive, n) && b.addr == addr
    ensures PrimaryOf(RemoveAt(alive, n), group) == Some(addr)
  {
    var b :| b in RemoveAt(alive, n) && b.addr == addr;
    InRemaining(alive, n, b);
    forall x | x in alive && x.addr == addr ensures x == b {
      SameAddress(alive, x, b);
    }
    assert alive[n] in alive;
    PrimaryOfRemaining(alive, n, group);
  }

  // ---- Whole runs ----

  /** `initialize_backend`: all backends configured, none connected. */
  function Initial(bs: seq<Backend>): Cluster {
    Cluster(bs, [], bs, map a | a in Addresses(bs) :: STARTED)
  }

  function Addresses(bs: seq<Backend>): set<Address> {
    set b | b in bs :: b.addr
  }

  /** The configuration: distinct addresses, nobody connected. */
  ghost predicate ConfigOk(bs: seq<Backend>) {
    Distinct(bs) && forall b :: b in bs ==> b.state == Crash && b.fd == -1
  }

  lemma InitialOk(bs: seq<Backend>)
    requires ConfigOk(bs) && PortsDiffer(bs)
    ensures Ok(Initial(bs))
  {
    assert [] + bs == bs;
    forall i | 0 <= i < |bs| ensures bs[i].fd == -1 {
      assert bs[i] in bs;
    }
  }

  function ApplyAll(c: Cluster, es: seq<Event>): Cluster {
    if es == [] then c else Apply(ApplyAll(c, es[..|es| - 1]), es[|es| - 1])
  }

  ghost predicate EventsOk(c: Cluster, es: seq<Event>) {
    es != [] ==> EventsOk(c, es[..|es| - 1]) && EventOk(ApplyAll(c, es[..|es| - 1]), es[|es| - 1])
  }

  lemma {:induction false} RunKeepsOk(c: Cluster, es: seq<Event>)
    requires Ok(c) && EventsOk(c, es)
    ensures Ok(ApplyAll(c, es))
  {
    hide Ok, Apply, EventOk;
    if es != [] {
      RunKeepsOk(c, es[..|es| - 1]);
      EventKeepsOk(ApplyAll(c, es[..|es| - 1]), es[|es| - 1]);
    }
  }

  /** Single primary over whole runs: after any sequence of registrations, kills, restarts
      and lost connections, the lists partition the configured backends and every group
      with an alive backend has exactly one primary. */
  lemma SinglePrimaryInEveryRun(bs: seq<Backend>, es: seq<Event>, group: nat)
    requires ConfigOk(bs) && PortsDiffer(bs) && EventsOk(Initial(bs), es)
    ensures var c := ApplyAll(Initial(bs), es);
            Partition(c) && (Members(c.alive, group) != [] ==> OnePrimary(c, group))
  {
    hide ApplyAll, EventsOk, Initial, OnePrimary, Partition, RolesOk;
    InitialOk(bs);
    RunKeepsOk(Initial(bs), es);
    if Members(ApplyAll(Initial(bs), es).alive, group) != [] {
      SinglePrimary(ApplyAll(Initial(bs), es), group);
    }
  }

  /** Without distinct ports in a group the property fails: when the two backends that
      share a port register one after the other, both regard themselves as primary. So
      the condition on ports is exact. */
  lemma SharedPortMakesTwoPrimaries(bs: seq<Backend>, i: nat, j: nat)
    requires ConfigOk(bs) && i < j < |bs| && bs[i].group == bs[j].group
    requires PortOf(bs[i].addr) == PortOf(bs[j].addr)
    ensures var es := [Register(bs[i].addr, 0), Register(bs[j].addr, 1)];
            EventsOk(Initial(bs), es) && !OnePrimary(ApplyAll(Initial(bs), es), bs[i].group)
  {
    hide Apply, EventsOk, ApplyAll, OnePrimary, Initial;
    var a, b := bs[i], bs[j];
    var c := FirstRegisters(bs, i);
    var a' := a.(fd := 0, state := Alive);
    InRemaining(bs, i, b);
    InUpdated(bs, i, a', b);
    forall x | x in c.backends ensures x.fd != 1 { InUpdated(bs, i, a', x); }
    TwoEvents(Initial(bs), Register(a.addr, 0), Register(b.addr, 1));
    DistinctRemaining(bs, i);
    BackendsStayDistinct(bs, i, a');
    assert b in bs;
    SecondRegisters(c, a', b);
  }

  /** Backends that are configured as "ip:port". */
  ghost predicate Configured(bs: seq<Backend>, ips: seq<string>, ports: seq<nat>) {
    && |ips| == |ports| == |bs|
    && forall i :: 0 <= i < |bs| ==> ':' !in ips[i] && bs[i].addr == ips[i] + ":" + Dec(ports[i])
  }

  lemma ConfiguredPorts(bs: seq<Backend>, ips: seq<string>, ports: seq<nat>)
    requires Configured(bs, ips, ports)
    ensures forall i :: 0 <= i < |bs| ==> PortOf(bs[i].addr) == ports[i]
  {
    forall i | 0 <= i < |bs| ensures PortOf(bs[i].addr) == ports[i] {
      PortIsNumber(ips[i], ports[i]);
    }
  }

  /** The same two results on configured names: with different port numbers in a group
      there is one primary in every run, and with a shared number there is a run with two. */
  lemma DifferentNumbersOnePrimary(bs: seq<Backend>, ips: seq<string>, ports: seq<nat>, es: seq<Event>, group: nat)
    requires ConfigOk(bs) && Configured(bs, ips, ports) && EventsOk(Initial(bs), es)
    requires forall i, j :: 0 <= i < j < |bs| && bs[i].group == bs[j].group ==> ports[i] != ports[j]
    ensures var c := ApplyAll(Initial(bs), es);
            Partition(c) && (Members(c.alive, group) != [] ==> OnePrimary(c, group))
  {
    hide PortOf, ApplyAll, EventsOk, Initial, OnePrimary, Partition, Members;
    ConfiguredPorts(bs, ips, ports);
    SinglePrimaryInEveryRun(bs, es, group);
  }

  lemma SharedNumberTwoPrimaries(bs: seq<Backend>, ips: seq<string>, ports: seq<nat>, i: nat, j: nat)
    requires ConfigOk(bs) && Configured(bs, ips, ports)
    requires i < j < |bs| && bs[i].group == bs[j].group && ports[i] == ports[j]
    ensures var es := [Register(bs[i].addr, 0), Register(bs[j].addr, 1)];
            EventsOk(Initial(bs), es) && !OnePrimary(ApplyAll(Initial(bs), es), bs[i].group)
  {
    hide PortOf, ApplyAll, EventsOk, Initial, OnePrimary;
    ConfiguredPorts(bs, ips, ports);
    SharedPortMakesTwoPrimaries(bs, i, j);
  }

  lemma BackendsStayDistinct(bs: seq<Backend>, k: nat, b': Backend)
    requires Distinct(bs) && k < |bs| && b'.addr == bs[k].addr
    ensures Distinct(bs[k := b'])
  {
  }

  lemma TwoEvents(c: Cluster, e1: Event, e2: Event)
    requires EventOk(c, e1) && EventOk(Apply(c, e1), e2)
    ensures EventsOk(c, [e1, e2]) && ApplyAll(c, [e1, e2]) == Apply(Apply(c, e1), e2)
  {
    hide Apply, EventOk;
    assert [e1, e2][..1] == [e1] && [e1][..0] == [];
    assert ApplyAll(c, []) == c && ApplyAll(c, [e1]) == Apply(c, e1);
    assert EventsOk(c, []) && EventsOk(c, [e1]);
  }

  lemma FirstRegisters(bs: seq<Backend>, i: nat) returns (c: Cluster)
    requires ConfigOk(bs) && i < |bs|
    ensures c == Apply(Initial(bs), Register(bs[i].addr, 0)) && EventOk(Initial(bs), Register(bs[i].addr, 0))
    ensures var a' := bs[i].(fd := 0, state := Alive);
            && c.alive == [a'] && c.dead == RemoveAt(bs, i) && c.backends == bs[i := a']
            && c.roles.Keys == Addresses(bs) && a'.addr in c.roles && c.roles[a'.addr] == Role(true, false)
  {
    var a, c0 := bs[i], Initial(bs);
    assert a in bs;
    forall x | x in bs && x.addr == a.addr ensures x == a { SameAddress(bs, x, a); }
    FoundIs(bs, ByName(a.addr), a);
    var a' := a.(fd := 0, state := Alive);
    SameGroupAfter(bs, i, a');
    assert [] + [a'] == [a'];
    assert Members([a'], a.group) == [a.addr] + [];
    c := Apply(c0, Register(a.addr, 0));
  }

  lemma SecondRegisters(c: Cluster, a: Backend, b: Backend)
    requires Distinct(c.backends) && Distinct(c.dead) && c.alive == [a] && b in c.dead && b in c.backends
    requires a.group == b.group && a.addr != b.addr && PortOf(a.addr) == PortOf(b.addr)
    requires a.addr in c.roles && b.addr in c.roles && c.roles[a.addr] == Role(true, false)
    ensures !OnePrimary(Apply(c, Register(b.addr, 1)), a.group)
  {
    forall x | x in c.dead && x.addr == b.addr ensures x == b { SameAddress(c.dead, x, b); }
    forall x | x in c.backends && x.addr == b.addr ensures x == b { SameAddress(c.backends, x, b); }
    FoundIs(c.dead, ByName(b.addr), b);
    FoundIs(c.backends, ByName(b.addr), b);
    var b' := b.(fd := 1, state := Alive);
    SameGroupAfter(c.backends, First(c.backends, ByName(b.addr)), b');
    var alive := c.alive + [b'];
    var t := Apply(c, Register(b.addr, 1));
    assert t.alive == alive;
    assert alive[1..] == [b'] && [b'][1..] == [];
    assert Members([b'], a.group) == [b.addr] + [];
    assert Members(alive, a.group) == [a.addr] + [b.addr];
    assert alive[0] == a && alive[1] == b' && a in alive && b' in alive;
    assert t.roles[a.addr].isPrimary && t.roles[b.addr].isPrimary;
  }
}
