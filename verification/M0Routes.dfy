/**
 The M0 generators of ansible/library/announce_routes.py, which carve one address range into the subnets of
 M0 devices and of the MX devices behind them.
 */
module M0Routes {
  import opened Common
  import opened Routes

  /** A prefix in text form; `Network` is what parsing it with `strict=False` yields. */
  datatype Cidr = Cidr(addr: nat, len: nat, width: nat)
  {
    function HostBits(): nat {
      if len <= width then width - len else 0
    }

    function Size(): nat {
      Pow2(HostBits())
    }

    function Start(): nat {
      ClearBits(addr, HostBits())
    }

    function End(): nat {
      Start() + Size()
    }

    ghost predicate Contains(a: int) {
      Start() <= a < End()
    }
  }

  /** The address with its last bits set to 0, as a mask does it. */
  function ClearBits(a: nat, bits: nat): nat {
    if bits == 0 then a else 2 * ClearBits(a / 2, bits - 1)
  }

  predicate PowerOfTwo(n: Positive) {
    n == Pow2(FloorLog2(n))
  }

  datatype M0Route = M0Route(prefix: Cidr, nexthop: string, aspath: Option<seq<int>>)

  datatype Config = Config(
    colos: nat, m0s: nat, m0Subnets: nat, m0Size: Positive, m0AsnStart: int,
    mxs: nat, mxSubnets: nat, mxSize: Positive, mxAsnStart: int,
    base: nat, width: nat, nexthop: string)
  {
    function DirectCount(): nat { m0Subnets * m0Size }
    function PerMx(): nat { mxSubnets * mxSize }
    function MxCount(): nat { mxs * mxSubnets * mxSize }

    /** The addresses set aside for one M0 device. */
    function PerM0(): nat { DirectCount() + MxCount() }

    /** Powers of two that fit the address space. */
    predicate Sized() {
      && PowerOfTwo(m0Size) && FloorLog2(m0Size) <= width
      && PowerOfTwo(mxSize) && FloorLog2(mxSize) <= width
    }

    predicate HasMx() { mxs > 0 && mxSubnets > 0 }

    /** Each block can stand right behind the one before it. */
    predicate Adjoining() {
      && (m0Subnets > 0 ==> base % m0Size == 0)
      && (HasMx() ==> (base + DirectCount()) % mxSize == 0)
      && (colos * m0s > 1 ==>
            && (m0Subnets > 0 ==> MxCount() % m0Size == 0)
            && (HasMx() ==> m0Subnets > 0 && DirectCount() % mxSize == 0))
    }
  }

  // ---- the generators ----

  function GeneratePrefix(size: Positive, ipBase: nat, offset: nat, width: nat): Cidr {
    Cidr(ipBase + offset, if FloorLog2(size) <= width then width - FloorLog2(size) else 0, width)
  }

  /** `get_next_ip_by_net`. */
  function NextIpByNet(net: Cidr): nat {
    net.End()
  }

  // ---- where the blocks stand: each behind the one before it ----

  /** k steps of n. */
  function Steps(k: nat, n: nat): nat {
    if k == 0 then 0 else Steps(k - 1, n) + n
  }

  /** Addresses handed to MX subnets before position (mx, subnet). */
  function MxOffset(c: Config, mx: nat, subnet: nat): nat
    decreases mx, subnet
  {
    if subnet > 0 then MxOffset(c, mx, subnet - 1) + c.mxSize
    else if mx > 0 then MxOffset(c, mx - 1, c.mxSubnets)
    else 0
  }

  /** How many M0 devices come before position (colo, m0). */
  function DeviceIndex(c: Config, colo: nat, m0: nat): nat
    decreases colo, m0
  {
    if m0 > 0 then DeviceIndex(c, colo, m0 - 1) + 1
    else if colo > 0 then DeviceIndex(c, colo - 1, c.m0s)
    else 0
  }

  lemma Distribute(x: nat, y: nat, z: nat)
    ensures (x + y) * z == x * z + y * z
  {
  }

  lemma {:induction false} StepsIs(k: nat, n: nat)
    ensures Steps(k, n) == k * n
  {
    if k == 0 {
    } else {
      StepsIs(k - 1, n);
      Distribute(k - 1, 1, n);
    }
  }

  lemma {:induction false} MxOffsetSteps(c: Config, perMx: nat, mx: nat, subnet: nat)
    requires perMx == Steps(c.mxSubnets, c.mxSize)
    ensures MxOffset(c, mx, subnet) == Steps(mx, perMx) + Steps(subnet, c.mxSize)
    decreases mx, subnet
  {
    if subnet > 0 {
      MxOffsetSteps(c, perMx, mx, subnet - 1);
    } else if mx > 0 {
      MxOffsetSteps(c, perMx, mx - 1, c.mxSubnets);
    }
  }

  /** The offset of an MX subnet as the code computes it. */
  lemma MxOffsetIs(c: Config, perMx: nat, mx: nat, subnet: nat)
    requires perMx == c.mxSubnets * c.mxSize
    ensures mx * perMx + subnet * c.mxSize == MxOffset(c, mx, subnet)
  {
    StepsIs(c.mxSubnets, c.mxSize);
    MxOffsetSteps(c, perMx, mx, subnet);
    StepsIs(mx, perMx);
    StepsIs(subnet, c.mxSize);
  }

  lemma {:induction false} DeviceIndexIs(c: Config, colo: nat, m0: nat)
    ensures DeviceIndex(c, colo, m0) == colo * c.m0s + m0
    decreases colo, m0
  {
    if m0 > 0 {
      DeviceIndexIs(c, colo, m0 - 1);
    } else if colo > 0 {
      DeviceIndexIs(c, colo - 1, c.m0s);
      Distribute(colo - 1, 1, c.m0s);
    }
  }

  /** The offset of an M0 device as the code computes it is one range per device passed. */
  lemma DeviceOffsetIs(c: Config, perM0: nat, colo: nat, m0: nat)
    ensures colo * c.m0s * perM0 + m0 * perM0 == Steps(DeviceIndex(c, colo, m0), perM0)
  {
    DeviceIndexIs(c, colo, m0);
    StepsIs(DeviceIndex(c, colo, m0), perM0);
    Distribute(colo * c.m0s, m0, perM0);
  }

  // ---- the routes ----

  function DirectRouteAt(c: Config, offset: nat, asn: Option<int>, subnet: nat): M0Route {
    M0Route(GeneratePrefix(c.m0Size, c.base, offset + Steps(subnet, c.m0Size), c.width), c.nexthop,
            if asn.None? then None else Some([asn.value]))
  }

  function SubnetRoutes(c: Config, offset: nat, asn: Option<int>, count: nat): seq<M0Route> {
    if count == 0 then [] else SubnetRoutes(c, offset, asn, count - 1) + [DirectRouteAt(c, offset, asn, count - 1)]
  }

  /** The variable `prefix` after the loop that made the routes. */
  function LastPrefix(rs: seq<M0Route>): Option<Cidr> {
    if rs == [] then None else Some(rs[|rs| - 1].prefix)
  }

  function MxRouteAt(c: Config, ipBaseMx: nat, asn: Option<int>, mx: nat, subnet: nat): M0Route {
    M0Route(GeneratePrefix(c.mxSize, ipBaseMx, MxOffset(c, mx, subnet), c.width), c.nexthop,
            Some((if asn.None? then [] else [asn.value]) + [c.mxAsnStart + mx]))
  }

  /** What the two loops over MX devices and their subnets have appended. */
  function MxRoutes(c: Config, ipBaseMx: nat, asn: Option<int>, mx: nat, subnet: nat): seq<M0Route>
    decreases mx, subnet
  {
    if subnet > 0 then MxRoutes(c, ipBaseMx, asn, mx, subnet - 1) + [MxRouteAt(c, ipBaseMx, asn, mx, subnet - 1)]
    else if mx > 0 then MxRoutes(c, ipBaseMx, asn, mx - 1, c.mxSubnets)
    else []
  }

  /** Where the MX subnets of one M0 start: behind its last direct subnet, or at the base if it has none. */
  function MxBase(c: Config, last: Option<Cidr>): nat {
    if last.None? then c.base else NextIpByNet(last.value)
  }

  /** One M0 device: its direct subnets and then those of its MX devices. */
  function DeviceRoutes(c: Config, offset: nat, asn: Option<int>): seq<M0Route> {
    var direct := SubnetRoutes(c, offset, asn, c.m0Subnets);
    direct + MxRoutes(c, MxBase(c, LastPrefix(direct)), asn, c.mxs, 0)
  }

  /** What one turn of the inner loop appends: nothing for the DUT itself, which is colo 0, device 0. */
  function DeviceRoutesAt(c: Config, perM0: nat, colo: nat, m0: nat): seq<M0Route> {
    if colo == 0 && m0 == 0 then []
    else DeviceRoutes(c, Steps(DeviceIndex(c, colo, m0), perM0), Some(c.m0AsnStart + m0))
  }

  /** What the loops over colos and M0 devices have appended. */
  function UpstreamUpTo(c: Config, perM0: nat, colo: nat, m0: nat): seq<M0Route>
    decreases colo, m0
  {
    if m0 > 0 then UpstreamUpTo(c, perM0, colo, m0 - 1) + DeviceRoutesAt(c, perM0, colo, m0 - 1)
    else if colo > 0 then UpstreamUpTo(c, perM0, colo - 1, c.m0s)
    else []
  }

  function DefaultRoute(c: Config): M0Route {
    M0Route(Cidr(0, 0, c.width), c.nexthop, None)
  }

  function UpstreamRoutes(c: Config): seq<M0Route> {
    [DefaultRoute(c)] + UpstreamUpTo(c, c.PerM0(), c.colos, 0)
  }

  function DownstreamRouteAt(c: Config, direct: nat, mxIndex: nat, subnet: nat): M0Route {
    M0Route(GeneratePrefix(c.mxSize, c.base, direct + MxOffset(c, mxIndex, subnet), c.width), c.nexthop, None)
  }

  /** The MX VM with the given index announces its own subnets. */
  function DownstreamRoutes(c: Config, direct: nat, mxIndex: nat, count: nat): seq<M0Route> {
    if count == 0 then []
    else DownstreamRoutes(c, direct, mxIndex, count - 1) + [DownstreamRouteAt(c, direct, mxIndex, count - 1)]
  }

  // ---- the loops ----

  method GenerateSubnetRoutes(c: Config, offset: nat, asn: Option<int>)
    returns (routes: seq<M0Route>, last: Option<Cidr>)
    ensures routes == SubnetRoutes(c, offset, asn, c.m0Subnets)
    ensures last == LastPrefix(routes)
  {
    routes, last := [], None;
    for m0Subnet := 0 to c.m0Subnets
      invariant routes == SubnetRoutes(c, offset, asn, m0Subnet) && last == LastPrefix(routes)
    {
      StepsIs(m0Subnet, c.m0Size);
      var prefix := GeneratePrefix(c.m0Size, c.base, offset + m0Subnet * c.m0Size, c.width);
      last := Some(prefix);
      routes := routes + [M0Route(prefix, c.nexthop, if asn.None? then None else Some([asn.value]))];
    }
  }

  method GenerateMxRoutes(c: Config, ipBaseMx: nat, asn: Option<int>) returns (routes: seq<M0Route>)
    ensures routes == MxRoutes(c, ipBaseMx, asn, c.mxs, 0)
  {
    routes := [];
    var perMx := c.mxSubnets * c.mxSize;
    for mx := 0 to c.mxs
      invariant routes == MxRoutes(c, ipBaseMx, asn, mx, 0)
    {
      var currMxAsn := c.mxAsnStart + mx;
      for mxSubnet := 0 to c.mxSubnets
        invariant routes == MxRoutes(c, ipBaseMx, asn, mx, mxSubnet)
      {
        MxOffsetIs(c, perMx, mx, mxSubnet);
        var prefix := GeneratePrefix(c.mxSize, ipBaseMx, mx * perMx + mxSubnet * c.mxSize, c.width);
        var aspath := if asn.None? then [currMxAsn] else [asn.value, currMxAsn];
        assert aspath == (if asn.None? then [] else [asn.value]) + [currMxAsn];
        routes := routes + [M0Route(prefix, c.nexthop, Some(aspath))];
      }
    }
  }

  method GenerateDeviceRoutes(c: Config, offset: nat, asn: Option<int>) returns (routes: seq<M0Route>)
    ensures routes == DeviceRoutes(c, offset, asn)
  {
    var subnetRoutes, prefix := GenerateSubnetRoutes(c, offset, asn);
    var ipBaseMx := if prefix.None? then c.base else NextIpByNet(prefix.value);
    var mxRoutes := GenerateMxRoutes(c, ipBaseMx, asn);
    routes := subnetRoutes + mxRoutes;
  }

  /** One turn of the inner loop over M0 devices. */
  method GenerateUpstreamDevice(c: Config, perM0: nat, colo: nat, m0: nat) returns (routes: seq<M0Route>)
    ensures routes == DeviceRoutesAt(c, perM0, colo, m0)
  {
    if colo == 0 && m0 == 0 {
      return [];
    }
    var coloOffset, m0Offset := colo * c.m0s * perM0, m0 * perM0;
    DeviceOffsetIs(c, perM0, colo, m0);
    routes := GenerateDeviceRoutes(c, coloOffset + m0Offset, Some(c.m0AsnStart + m0));
  }

  method GenerateUpstreamRoutes(c: Config) returns (routes: seq<M0Route>)
    ensures routes == UpstreamRoutes(c)
  {
    var perM0 := c.PerM0();
    var blocks: seq<M0Route> := [];
    for colo := 0 to c.colos
      invariant blocks == UpstreamUpTo(c, perM0, colo, 0)
    {
      for m0 := 0 to c.m0s
        invariant blocks == UpstreamUpTo(c, perM0, colo, m0)
      {
        var deviceRoutes := GenerateUpstreamDevice(c, perM0, colo, m0);
        blocks := blocks + deviceRoutes;
      }
    }
    routes := [DefaultRoute(c)] + blocks;
  }

  method GenerateDownstreamRoutes(c: Config, mxIndex: nat) returns (routes: seq<M0Route>)
    ensures routes == DownstreamRoutes(c, c.DirectCount(), mxIndex, c.mxSubnets)
  {
    routes := [];
    var direct, perMx := c.m0Subnets * c.m0Size, c.mxSubnets * c.mxSize;
    for subnet := 0 to c.mxSubnets
      invariant routes == DownstreamRoutes(c, direct, mxIndex, subnet)
    {
      MxOffsetIs(c, perMx, mxIndex, subnet);
      var offset := direct + mxIndex * perMx + subnet * c.mxSize;
      routes := routes + [M0Route(GeneratePrefix(c.mxSize, c.base, offset, c.width), c.nexthop, None)];
    }
  }

  /** `get_next_ip`: the least address past all the given networks. */
  method GetNextIp(skipNets: seq<Cidr>) returns (next: Option<nat>)
    ensures next.None? <==> skipNets == []
    ensures next.Some? ==> forall n, a: int :: n in skipNets && n.Contains(a) ==> a < next.value
    ensures next.Some? ==> exists n :: n in skipNets && n.Contains(next.value - 1)
  {
    next := None;
    for i := 0 to |skipNets|
      invariant next.None? <==> i == 0
      invariant next.Some? ==> forall k :: 0 <= k < i ==> skipNets[k].End() <= next.value
      invariant next.Some? ==> exists k :: 0 <= k < i && skipNets[k].End() == next.value
    {
      var nextIp := NextIpByNet(skipNets[i]);
      if next.None? || nextIp > next.value {
        next := Some(nextIp);
      }
    }
    if next.Some? {
      var k :| 0 <= k < |skipNets| && skipNets[k].End() == next.value;
      assert skipNets[k] in skipNets && skipNets[k].Contains(next.value - 1);
    }
  }
}
