/**
 The classes of ansible/library/nut_allocate_ip.py: the subnet iterator, the setup of pools, loopbacks and ASNs,
 and the search that updates its tables in place. The search is proved against the state machine of module
 P2pSearch, and raises exactly when that machine ends in an error or charges some pool more children than it has.
 */
module P2pAllocator {
  import opened Common
  import opened Networks
  import opened P2pSearch
  import opened P2pAddresses
  import opened P2pMonotone
  import opened NutSetup

  class IPAllocator {
    const network: Network
    const childLen: nat
    var pos: nat   // how many children the iterator has yielded

    constructor (ipcidr: Network, childSubnetPrefixLen: nat)
      ensures network == ipcidr && childLen == childSubnetPrefixLen && pos == 0
    {
      network, childLen, pos := ipcidr, childSubnetPrefixLen, 0;
    }

    /** The loop of the constructor over `start_offset`; false where it raises. */
    method Skip(startOffset: nat) returns (ok: bool)
      requires pos == 0
      modifies this`pos
      ensures ok <==> startOffset <= SubnetCount(network, childLen)
      ensures ok ==> pos == startOffset
    {
      for i := 0 to startOffset
        invariant pos == i <= SubnetCount(network, childLen)
      {
        if pos == SubnetCount(network, childLen) {
          return false;
        }
        pos := pos + 1;
      }
      return true;
    }

    /** The next child; None where the source raises. */
    method Allocate() returns (r: Option<Child>)
      modifies this`pos
      ensures r.Some? <==> old(pos) < SubnetCount(network, childLen)
      ensures r.Some? ==> r.value == Child(network, childLen, old(pos)) && pos == old(pos) + 1
      ensures r.None? ==> pos == old(pos)
    {
      if pos < SubnetCount(network, childLen) {
        r := Some(Child(network, childLen, pos));
        pos := pos + 1;
      } else {
        r := None;
      }
    }
  }

  /** The maps from pool to allocator that `_prepare` fills: devices with the same pool share the object. */
  type Allocators = map<Network, IPAllocator>

  ghost predicate Serves(allocators: Allocators, pool: map<Device, Network>) {
    && (forall n :: n in allocators ==>
          allocators[n].network == n && n.width >= 2 && allocators[n].childLen == n.width - 2)
    && (forall d :: d in pool ==> pool[d] in allocators)
  }

  ghost predicate PositionsAre(allocators: Allocators, used: map<Network, nat>)
    reads allocators.Values
  {
    forall n :: n in allocators ==> allocators[n].pos == Count(used, n)
  }

  /** `allocate()` for a link of device d, then `subnet[1]`, which a host route does not have. */
  method TakePair(allocators: Allocators, pool: map<Device, Network>, d: Device, ghost used: map<Network, nat>)
    returns (ok: bool, child: Option<Child>)
    requires Serves(allocators, pool) && PositionsAre(allocators, used)
    modifies allocators.Values
    ensures d !in pool ==> ok && child == None && PositionsAre(allocators, used)
    ensures d in pool ==> (ok <==> Count(used, pool[d]) < P2pCapacity(pool[d]))
    ensures d in pool && ok ==>
              && child == Some(Child(pool[d], pool[d].width - 2, Count(used, pool[d])))
              && PositionsAre(allocators, Draw(pool, used, d))
  {
    if d !in pool {
      return true, None;
    }
    var a := allocators[pool[d]];
    child := a.Allocate();
    ok := child.Some? && a.network.len < a.network.width;
  }

  /** A pool joins the map of allocators unless an equal one is there; the device is served from it. */
  method AddPool(d: Device, n: Option<Network>, childLen: nat, pool: map<Device, Network>, allocators: Allocators)
    returns (pool': map<Device, Network>, allocators': Allocators)
    requires n.Some? ==> n.value.width == childLen + 2
    requires Serves(allocators, pool) && PositionsAre(allocators, map[])
    ensures Serves(allocators', pool') && PositionsAre(allocators', map[])
    ensures pool' == Entered(pool, d, n)
    ensures allocators.Values <= allocators'.Values && fresh(allocators'.Values - allocators.Values)
  {
    pool', allocators' := pool, allocators;
    if n.Some? {
      if n.value !in allocators {
        var a := new IPAllocator(n.value, childLen);
        allocators' := allocators[n.value := a];
        assert forall m :: m in allocators ==> allocators'[m] == allocators[m] && allocators[m] in allocators.Values;
      }
      pool' := pool[d := n.value];
    }
  }

  /** The loops of `_prepare` over DUTs and traffic generators, for one address family. */
  method BuildPools(f: Facts, v6: bool) returns (pool: map<Device, Network>, allocators: Allocators)
    requires f.Widths() && forall d :: d in f.duts ==> TemplateOf(f, d).Some?
    ensures pool == Pools(f, v6) && Serves(allocators, pool) && PositionsAre(allocators, map[])
    ensures fresh(allocators.Values)
  {
    pool, allocators := map[], map[];
    var childLen := if v6 then 126 else 30;
    for k := 0 to |f.duts|
      invariant Serves(allocators, pool) && PositionsAre(allocators, map[]) && fresh(allocators.Values)
      invariant PoolTable(f, v6, k, 0, pool)
    {
      PoolAfterDut(f, v6, k, pool);
      var t := TemplateOf(f, f.duts[k]).value;
      pool, allocators := AddPool(f.duts[k], t.P2p(v6), childLen, pool, allocators);
    }
    for j := 0 to |f.tgs|
      invariant Serves(allocators, pool) && PositionsAre(allocators, map[]) && fresh(allocators.Values)
      invariant PoolTable(f, v6, |f.duts|, j, pool)
    {
      PoolAfterTg(f, v6, j, pool);
      pool, allocators := AddPool(f.tgs[j], f.tgTemplate.P2p(v6), childLen, pool, allocators);
    }
    PoolsAre(f, v6, pool);
  }

  /** `IPAllocator(pool, width, start_offset=index + 1).allocate()`; None where either call raises. */
  method TakeHost(n: Network, index: nat) returns (r: Option<Network>)
    ensures r == HostAfter(n, index)
  {
    var allocator := new IPAllocator(n, n.width);
    var ok := allocator.Skip(index + 1);
    if !ok {
      return None;
    }
    var child := allocator.Allocate();
    r := if child.Some? then Some(child.value.Block()) else None;
  }

  /** `_allocate_dut_loopback_ip`; None where it raises. */
  method TakeLoopbacks(t: Template, index: nat) returns (r: Option<Loopbacks>)
    ensures r == LoopbackOf(t, index)
  {
    if t.loopback4.None? && t.loopback6.None? {
      return None;
    }
    var v4, v6, router := None, None, None;
    if t.loopback4.Some? {
      v4 := TakeHost(t.loopback4.value, index);
      if v4.None? { return None; }
    }
    if t.routerId.Some? {
      router := TakeHost(t.routerId.value, index);
      if router.None? { return None; }
    } else if t.loopback4.Some? {
      router := v4;
    } else {
      return None;
    }
    if t.loopback6.Some? {
      v6 := TakeHost(t.loopback6.value, index);
      if v6.None? { return None; }
    }
    r := Some(Loopbacks(v4, v6, router.value.base));
  }

  class GenerateDeviceConfig {
    var allocators4: Allocators
    var allocators6: Allocators
    var pool4: map<Device, Network>   // which allocator serves a device
    var pool6: map<Device, Network>
    var loopbacks: map<Device, Loopbacks>
    var asn: map<Device, int>
    var ifaces: set<End>
    var ip4: map<End, Addr>
    var ip6: map<End, Addr>
    var sessions: map<End, Session>
    var neighbours: set<(Device, Device)>

    constructor ()
      ensures Empty()
    {
      allocators4, allocators6, pool4, pool6 := map[], map[], map[], map[];
      loopbacks, asn := map[], map[];
      ifaces, ip4, ip6, sessions, neighbours := {}, map[], map[], map[], {};
    }

    ghost predicate Empty()
      reads this
    {
      && loopbacks == map[] && asn == map[]
      && ifaces == {} && ip4 == map[] && ip6 == map[] && sessions == map[] && neighbours == {}
    }

    /** `_prepare`; false where a DUT has no template. */
    method Prepare(f: Facts) returns (ok: bool)
      requires f.Widths()
      modifies `allocators4, `allocators6, `pool4, `pool6
      ensures ok <==> forall d :: d in f.duts ==> TemplateOf(f, d).Some?
      ensures ok ==> && pool4 == Pools(f, false) && Serves(allocators4, pool4) && PositionsAre(allocators4, map[])
                     && pool6 == Pools(f, true) && Serves(allocators6, pool6) && PositionsAre(allocators6, map[])
                     && allocators4.Values !! allocators6.Values && fresh(allocators4.Values + allocators6.Values)
    {
      for k := 0 to |f.duts|
        invariant forall i :: 0 <= i < k ==> TemplateOf(f, f.duts[i]).Some?
      {
        if TemplateOf(f, f.duts[k]).None? {
          return false;
        }
      }
      pool4, allocators4 := BuildPools(f, false);
      ghost var built4 := allocators4.Values;
      pool6, allocators6 := BuildPools(f, true);
      ok := true;
    }

    /** `_allocate_dut_loopback_ip` and `_allocate_dut_bgp_asn`; false where either raises. */
    method SetUpDut(f: Facts, index: nat) returns (ok: bool)
      requires index < |f.duts| && TemplateOf(f, f.duts[index]).Some?
      requires loopbacks == LoopbacksUpTo(f, index) && asn == DutAsns(f, index)
      modifies `loopbacks, `asn
      ensures ok <==> DutReady(f, index)
      ensures ok ==> loopbacks == LoopbacksUpTo(f, index + 1) && asn == DutAsns(f, index + 1)
    {
      var dut := f.duts[index];
      var t := TemplateOf(f, dut).value;
      var row := TakeLoopbacks(t, index);
      ok := row.Some? && t.asnBase.Some?;
      if ok {
        loopbacks := loopbacks[dut := row.value];
        asn := asn[dut := t.asnBase.value + index * if t.asnStep.None? then 1 else t.asnStep.value];
      }
    }

    /** The loop over DUTs: loopbacks, router id and ASN by position. */
    method SetUpDuts(f: Facts) returns (ok: bool)
      requires forall d :: d in f.duts ==> TemplateOf(f, d).Some?
      requires loopbacks == map[] && asn == map[]
      modifies `loopbacks, `asn
      ensures ok <==> DutsReady(f, |f.duts|)
      ensures ok ==> loopbacks == LoopbacksUpTo(f, |f.duts|) && asn == DutAsns(f, |f.duts|)
    {
      for index := 0 to |f.duts|
        invariant DutsReady(f, index)
        invariant loopbacks == LoopbacksUpTo(f, index) && asn == DutAsns(f, index)
      {
        NextDutReady(f, index);
        ok := SetUpDut(f, index);
        if !ok {
          return;
        }
      }
      ok := true;
    }

    /** The loop over traffic generators: an ASN by position. */
    method SetUpTgs(f: Facts) returns (ok: bool)
      requires asn == DutAsns(f, |f.duts|)
      modifies `asn
      ensures ok <==> f.tgs == [] || f.tgTemplate.asnBase.Some?
      ensures ok ==> asn == AllAsns(f, |f.tgs|)
    {
      for index := 0 to |f.tgs|
        invariant index > 0 ==> f.tgTemplate.asnBase.Some?
        invariant asn == AllAsns(f, index)
      {
        var t := f.tgTemplate;
        if t.asnBase.None? {
          return false;
        }
        asn := asn[f.tgs[index] := t.asnBase.value + index * if t.asnStep.None? then 1 else t.asnStep.value];
      }
      ok := true;
    }

    /** Everything `run` does before the search; false where something raises. */
    method SetUp(f: Facts) returns (ok: bool)
      requires Empty() && f.Widths()
      modifies `allocators4, `allocators6, `pool4, `pool6, `loopbacks, `asn
      ensures ok <==> SetupOk(f)
      ensures ok ==> && pool4 == Pools(f, false) && Serves(allocators4, pool4) && PositionsAre(allocators4, map[])
                     && pool6 == Pools(f, true) && Serves(allocators6, pool6) && PositionsAre(allocators6, map[])
                     && allocators4.Values !! allocators6.Values && fresh(allocators4.Values + allocators6.Values)
      ensures ok ==> loopbacks == LoopbacksUpTo(f, |f.duts|) && asn == AllAsns(f, |f.tgs|)
    {
      ok := Prepare(f);
      if !ok {
        ghost var i :| 0 <= i < |f.duts| && TemplateOf(f, f.duts[i]).None?;
        assert !DutReady(f, i);
        return;
      }
      ok := SetUpDuts(f);
      if ok {
        ok := SetUpTgs(f);
      }
    }

    /**
     `run`. It completes exactly when setup does not raise and the search, on the pools and ASNs that setup
     made, neither raises nor runs a pool dry; the tables are then those of the search's machine.
     */
    method Run(f: Facts, ports: map<Device, seq<Port>>, peer: map<End, End>) returns (ok: bool)
      requires Empty() && f.Widths() && Tables(ports, peer) && Distinct(f.tgs)
      modifies this
      ensures ok <==> SetupOk(f) && Completes(Setup(f, ports, peer))
      ensures ok ==> loopbacks == LoopbacksUpTo(f, |f.duts|) && asn == AllAsns(f, |f.tgs|)
      ensures ok ==> Setup(f, ports, peer).WellFormed() && Holds(Outcome(Setup(f, ports, peer)))
    {
      ok := SetUp(f);
      if ok {
        SetupReady(f, ports, peer);
        ok := AllocateP2pIp(Testbed(f.duts, f.tgs, ports, peer, pool4, pool6, asn));
      }
    }

    ghost predicate Ready(c: Testbed)
      reads this
    {
      && Serves(allocators4, c.pool4) && Serves(allocators6, c.pool6)
      && allocators4.Values !! allocators6.Values
    }

    /** The tables and the iterators of this object are those of state s. */
    ghost predicate Holds(s: State)
      reads this, allocators4.Values, allocators6.Values
    {
      && ifaces == s.ifaces && ip4 == s.ip4 && ip6 == s.ip6
      && sessions == s.sessions && neighbours == s.neighbours
      && PositionsAre(allocators4, s.used4) && PositionsAre(allocators6, s.used6)
    }

    /** One draw for IPv4: the near end gets host 1, the far end host 2. */
    method Address4(c: Testbed, ghost s: State, e: End, f: End)
      returns (ok: bool, near: Option<Addr>, far: Option<Addr>)
      requires Ready(c) && PositionsAre(allocators4, s.used4) && ip4 == s.ip4
      modifies `ip4, allocators4.Values
      ensures ok <==> (e.dev in c.pool4 ==> Count(s.used4, c.pool4[e.dev]) < P2pCapacity(c.pool4[e.dev]))
      ensures ok ==> && ip4 == Assign(c.pool4, s.used4, s.ip4, e, f)
                     && PositionsAre(allocators4, Draw(c.pool4, s.used4, e.dev))
                     && near == Drawn(c.pool4, s.used4, e.dev, 1) && far == Drawn(c.pool4, s.used4, e.dev, 2)
    {
      near, far := None, None;
      var child;
      ok, child := TakePair(allocators4, c.pool4, e.dev, s.used4);
      if ok && child.Some? {
        var first, second := Addr(child.value.pool, child.value.slot, 1), Addr(child.value.pool, child.value.slot, 2);
        ip4 := ip4[e := first][f := second];
        near, far := Some(first), Some(second);
      }
    }

    /** One draw for IPv6. */
    method Address6(c: Testbed, ghost s: State, e: End, f: End)
      returns (ok: bool, near: Option<Addr>, far: Option<Addr>)
      requires Ready(c) && PositionsAre(allocators6, s.used6) && ip6 == s.ip6
      modifies `ip6, allocators6.Values
      ensures ok <==> (e.dev in c.pool6 ==> Count(s.used6, c.pool6[e.dev]) < P2pCapacity(c.pool6[e.dev]))
      ensures ok ==> && ip6 == Assign(c.pool6, s.used6, s.ip6, e, f)
                     && PositionsAre(allocators6, Draw(c.pool6, s.used6, e.dev))
                     && near == Drawn(c.pool6, s.used6, e.dev, 1) && far == Drawn(c.pool6, s.used6, e.dev, 2)
    {
      near, far := None, None;
      var child;
      ok, child := TakePair(allocators6, c.pool6, e.dev, s.used6);
      if ok && child.Some? {
        var first, second := Addr(child.value.pool, child.value.slot, 1), Addr(child.value.pool, child.value.slot, 2);
        ip6 := ip6[e := first][f := second];
        near, far := Some(first), Some(second);
      }
    }

    /** Both families; IPv4 is drawn first. */
    method DrawBoth(c: Testbed, ghost s: State, e: End, f: End)
      returns (ok: bool, near4: Option<Addr>, far4: Option<Addr>, near6: Option<Addr>, far6: Option<Addr>)
      requires Ready(c) && Holds(s)
      modifies `ip4, `ip6, allocators4.Values, allocators6.Values
      ensures ok <==> Affordable(c, s, e.dev)
      ensures ok ==> && ip4 == Assign(c.pool4, s.used4, s.ip4, e, f) && ip6 == Assign(c.pool6, s.used6, s.ip6, e, f)
                     && PositionsAre(allocators4, Draw(c.pool4, s.used4, e.dev))
                     && PositionsAre(allocators6, Draw(c.pool6, s.used6, e.dev))
      ensures ok ==> && near4 == Drawn(c.pool4, s.used4, e.dev, 1) && far4 == Drawn(c.pool4, s.used4, e.dev, 2)
                     && near6 == Drawn(c.pool6, s.used6, e.dev, 1) && far6 == Drawn(c.pool6, s.used6, e.dev, 2)
    {
      near6, far6 := None, None;
      ok, near4, far4 := Address4(c, s, e, f);
      if ok {
        ghost var used4 := Draw(c.pool4, s.used4, e.dev);
        assert PositionsAre(allocators6, s.used6);
        ok, near6, far6 := Address6(c, s, e, f);
        assert PositionsAre(allocators4, used4);
      }
    }

    /** Both interface rows exist and get their addresses; the same draws fill the rows of both ends. */
    method AddressLink(c: Testbed, ghost s: State, e: End, f: End) returns (ok: bool, near: Session, far: Session)
      requires e.dev in c.asn && f.dev in c.asn
      requires Ready(c) && Holds(s)
      modifies `ifaces, `ip4, `ip6, allocators4.Values, allocators6.Values
      ensures ok <==> Affordable(c, s, e.dev)
      ensures ok ==> && ifaces == s.ifaces + {e, f}
                     && ip4 == Assign(c.pool4, s.used4, s.ip4, e, f) && ip6 == Assign(c.pool6, s.used6, s.ip6, e, f)
                     && PositionsAre(allocators4, Draw(c.pool4, s.used4, e.dev))
                     && PositionsAre(allocators6, Draw(c.pool6, s.used6, e.dev))
                     && near == NearRow(c, s, e, f) && far == FarRow(c, s, e, f)
    {
      var near4, far4, near6, far6;
      ok, near4, far4, near6, far6 := DrawBoth(c, s, e, f);
      ifaces := ifaces + {e, f};
      near := Session(f, near4, far4, near6, far6, c.asn[f.dev]);
      far := Session(e, far4, near4, far6, near6, c.asn[e.dev]);
    }

    /** Both ends of a pooled link become BGP sessions and neighbours, and the peer device joins the queue. */
    method RecordLink(c: Testbed, ghost t: State, e: End, f: End, near: Session, far: Session,
                      pending: seq<Device>, visited: set<Device>)
      returns (pending': seq<Device>)
      requires Holds(t) && pending == t.pending && visited == Elems(t.visited)
      modifies `sessions, `neighbours
      ensures var r := Enqueue(Record(c, t, e, f, near, far), f.dev); Holds(r) && pending' == r.pending
    {
      ghost var u := Record(c, t, e, f, near, far);
      if c.Pooled(e.dev) {
        sessions := sessions[e := near][f := far];
        neighbours := neighbours + {(e.dev, f.dev), (f.dev, e.dev)};
      }
      assert Holds(u) && u.pending == t.pending && u.visited == t.visited;
      pending' := if f.dev in visited || f.dev in pending then pending else pending + [f.dev];
    }

    /** The rest of the inner loop body, for a link end that is not recorded and stays in the testbed. */
    method OpenLink(c: Testbed, ghost s: State, e: End, f: End, pending: seq<Device>, visited: set<Device>)
      returns (ok: bool, pending': seq<Device>)
      requires e.dev in c.asn && f.dev in c.asn
      requires Ready(c) && Holds(s)
      requires pending == s.pending && visited == Elems(s.visited)
      modifies `ifaces, `ip4, `ip6, `sessions, `neighbours, allocators4.Values, allocators6.Values
      ensures ok <==> Affordable(c, s, e.dev)
      ensures ok ==> Holds(Open(c, s, e, f)) && pending' == Open(c, s, e, f).pending
    {
      pending' := pending;
      var near, far;
      ok, near, far := AddressLink(c, s, e, f);
      if ok {
        ghost var t := Address(c, s, e, f);
        assert Holds(t);
        if f.dev != e.dev {
          pending' := RecordLink(c, t, e, f, near, far, pending, visited);
        }
      }
    }

    /** One pass of the inner loop body. */
    method VisitLink(c: Testbed, ghost s: State, e: End, pending: seq<Device>, visited: set<Device>)
      returns (ok: bool, pending': seq<Device>)
      requires c.WellFormed() && c.Member(e.dev) && e in c.peer
      requires Ready(c) && Holds(s) && s.error.None? && Affords(s)
      requires pending == s.pending && visited == Elems(s.visited)
      modifies `ifaces, `ip4, `ip6, `sessions, `neighbours, allocators4.Values, allocators6.Values
      ensures ok <==> VisitPort(c, s, e).error.None? && Affords(VisitPort(c, s, e))
      ensures ok ==> Holds(VisitPort(c, s, e)) && pending' == VisitPort(c, s, e).pending
    {
      ghost var m := s.(met := s.met + {e});
      pending' := pending;
      var f := c.peer[e];
      PortCase(c, s, e, VisitPort(c, s, e));
      if !c.Member(f.dev) || e in sessions {
        return true, pending;
      }
      if f in sessions || f.dev !in c.ports {
        return false, pending;
      }
      ok, pending' := OpenLink(c, m, e, f, pending, visited);
    }

    method VisitLinks(c: Testbed, ghost s: State, d: Device, pending: seq<Device>, visited: set<Device>)
      returns (ok: bool, pending': seq<Device>)
      requires c.WellFormed() && c.Member(d) && d in c.ports
      requires Ready(c) && Holds(s) && s.error.None? && Affords(s)
      requires pending == s.pending && visited == Elems(s.visited)
      modifies `ifaces, `ip4, `ip6, `sessions, `neighbours, allocators4.Values, allocators6.Values
      ensures var r := VisitPorts(c, s, d, c.ports[d]);
              && (ok ==> Holds(r) && r.error.None? && Affords(r) && pending' == r.pending && r.visited == s.visited)
              && (!ok ==> r.error.Some? || !Affords(r))
    {
      pending' := pending;
      var ports := c.ports[d];
      ghost var t := s;
      for i := 0 to |ports|
        invariant Holds(t) && t.error.None? && Affords(t) && pending' == t.pending && t.visited == s.visited
        invariant VisitPorts(c, t, d, ports[i..]) == VisitPorts(c, s, d, ports)
      {
        assert ports[i..][0] == ports[i] && ports[i..][1..] == ports[i + 1..];
        VisitPortQueue(c, t, End(d, ports[i]));
        ok, pending' := VisitLink(c, t, End(d, ports[i]), pending', visited);
        t := VisitPort(c, t, End(d, ports[i]));
        if !ok {
          VisitPortsGrows(c, t, d, ports[i + 1..]);
          GrownUnaffordable(t, VisitPorts(c, t, d, ports[i + 1..]));
          return;
        }
      }
      ok := true;
    }

    /**
     The search. It raises exactly when the machine ends in an error or some pool is charged more links
     than it can serve, and otherwise leaves the machine's tables.
     */
    method AllocateP2pIp(c: Testbed) returns (ok: bool)
      requires c.WellFormed() && Ready(c)
      requires Holds(Init(c))
      modifies `ifaces, `ip4, `ip6, `sessions, `neighbours, allocators4.Values, allocators6.Values
      ensures ok <==> Outcome(c).error.None? && Affords(Outcome(c))
      ensures ok ==> Holds(Outcome(c))
    {
      InitWorkList(c);
      var pending, visited := c.tgs, {};
      ghost var s := Init(c);
      while pending != []
        invariant WorkList(c, s) && Holds(s) && s.error.None? && Affords(s)
        invariant pending == s.pending && visited == Elems(s.visited)
        invariant Search(c, s) == Outcome(c)
        decreases c.Members() - visited
      {
        SearchStep(c, s);
        var d := pending[0];
        pending, visited := pending[1..], visited + {d};
        if d !in c.ports {
          return false;
        }
        assert Elems(Pop(s).visited) == visited;
        ok, pending := VisitLinks(c, Pop(s), d, pending, visited);
        if !ok {
          return;
        }
        s := VisitDevice(c, s);
      }
      ok := true;
    }
  }

  /** Neither of the device's pools is used up. */
  ghost predicate Affordable(c: Testbed, s: State, d: Device) {
    && (d in c.pool4 ==> Count(s.used4, c.pool4[d]) < P2pCapacity(c.pool4[d]))
    && (d in c.pool6 ==> Count(s.used6, c.pool6[d]) < P2pCapacity(c.pool6[d]))
  }

  /** The search ends without an error and within its pools. */
  ghost predicate Completes(c: Testbed) {
    c.WellFormed() && Outcome(c).error.None? && Affords(Outcome(c))
  }

  /** No pool was charged more links than it can serve. */
  ghost predicate Affords(s: State) {
    Fits(s.used4) && Fits(s.used6)
  }

  /** The three ways through the loop body. */
  lemma PortCase(c: Testbed, s: State, e: End, r: State)
    requires c.WellFormed() && c.Member(e.dev) && e in c.peer && s.error.None? && r == VisitPort(c, s, e)
    ensures var f, m := c.peer[e], s.(met := s.met + {e});
            if !c.Member(f.dev) || e in s.sessions then r == m
            else if f in s.sessions || f.dev !in c.ports then r.error.Some?
            else
              && r == Open(c, m, e, f) && r.error.None?
              && (Affords(s) ==> (Affords(r) <==> Affordable(c, m, e.dev)))
  {
    if c.Member(c.peer[e].dev) {
      OpenDraws(c, s.(met := s.met + {e}), e, c.peer[e]);
    }
  }

  /** One turn of the work-list loop; what it overdraws stays overdrawn, and what it raises stays raised. */
  lemma SearchStep(c: Testbed, s: State)
    requires c.WellFormed() && WorkList(c, s) && s.pending != [] && s.error.None?
    ensures var d := s.pending[0]; c.Member(d) && d in c.Members() - Elems(s.visited)
    ensures var d, r := s.pending[0], VisitDevice(c, s);
            && WorkList(c, r) && Search(c, s) == Search(c, r)
            && (if d in c.ports then r == VisitPorts(c, Pop(s), d, c.ports[d]) else r.error.Some?)
            && (r.error.Some? || !Affords(r) ==> Search(c, s).error.Some? || !Affords(Search(c, s)))
  {
    VisitDeviceWorkList(c, s);
    assert s.pending[0] in c.Members() - Elems(s.visited);
    var r := VisitDevice(c, s);
    SearchGrows(c, r);
    GrownUnaffordable(r, Search(c, r));
  }

  lemma GrownUnaffordable(s: State, r: State)
    requires Grows(s, r)
    ensures s.error.Some? || !Affords(s) ==> r.error.Some? || !Affords(r)
  {
    if !Fits(s.used4) {
      var n :| Count(s.used4, n) > P2pCapacity(n);
      assert Count(r.used4, n) > P2pCapacity(n);
    } else if !Fits(s.used6) {
      var n :| Count(s.used6, n) > P2pCapacity(n);
      assert Count(r.used6, n) > P2pCapacity(n);
    }
  }

  lemma FitsAfterDraw(pool: map<Device, Network>, used: map<Network, nat>, d: Device)
    ensures d in pool && Count(used, pool[d]) >= P2pCapacity(pool[d]) ==> !Fits(Draw(pool, used, d))
    ensures Fits(used) && (d in pool ==> Count(used, pool[d]) < P2pCapacity(pool[d])) ==> Fits(Draw(pool, used, d))
  {
    if d in pool {
      assert Count(Draw(pool, used, d), pool[d]) == Count(used, pool[d]) + 1;
    }
  }

  lemma OpenDraws(c: Testbed, m: State, e: End, f: End)
    requires e.dev in c.asn && f.dev in c.asn
    ensures var r := Open(c, m, e, f);
            && r.error == m.error
            && (!Affordable(c, m, e.dev) ==> !Affords(r))
            && (Affords(m) && Affordable(c, m, e.dev) ==> Affords(r))
  {
    FitsAfterDraw(c.pool4, m.used4, e.dev);
    FitsAfterDraw(c.pool6, m.used6, e.dev);
    RecordLeaves(c, Address(c, m, e, f), e, f, NearRow(c, m, e, f), FarRow(c, m, e, f));
  }
}
