/** What the AS paths of the M0 generators of ansible/library/announce_routes.py say. */
module M0Paths {
  import opened Common
  import opened Routes
  import opened M0Routes

  /** The path ends with the MX device, behind the M0 device where that one is not the neighbour itself. */
  ghost predicate MxPath(c: Config, asn: Option<int>, path: Option<seq<int>>, mx: nat) {
    && path.Some? && |path.value| == (if asn.Some? then 2 else 1)
    && path.value[|path.value| - 1] - c.mxAsnStart == mx
    && (asn.Some? ==> path.value[0] == asn.value)
  }

  /** A subnet of an MX device: where it stands and how its path reads. */
  ghost predicate MxTells(c: Config, ipBaseMx: nat, asn: Option<int>, r: M0Route, mx: nat, subnet: nat) {
    && r.prefix.addr == ipBaseMx + (mx * c.mxSubnets + subnet) * c.mxSize
    && r.prefix.width == c.width
    && r.prefix.HostBits() == (if FloorLog2(c.mxSize) <= c.width then FloorLog2(c.mxSize) else c.width)
    && r.nexthop == c.nexthop && MxPath(c, asn, r.aspath, mx)
  }

  lemma MxPosition(c: Config, mx: nat, subnet: nat)
    ensures MxOffset(c, mx, subnet) == (mx * c.mxSubnets + subnet) * c.mxSize
  {
    var perMx := c.mxSubnets * c.mxSize;
    MxOffsetIs(c, perMx, mx, subnet);
    Distribute(mx * c.mxSubnets, subnet, c.mxSize);
    assert mx * perMx == mx * c.mxSubnets * c.mxSize;
  }

  lemma MxRouteTells(c: Config, ipBaseMx: nat, asn: Option<int>, mx: nat, subnet: nat)
    ensures MxTells(c, ipBaseMx, asn, MxRouteAt(c, ipBaseMx, asn, mx, subnet), mx, subnet)
  {
    MxPosition(c, mx, subnet);
  }

  lemma {:induction false} MxCount(c: Config, ipBaseMx: nat, asn: Option<int>, mx: nat, subnet: nat)
    requires subnet <= c.mxSubnets
    ensures |MxRoutes(c, ipBaseMx, asn, mx, subnet)| == mx * c.mxSubnets + subnet
    decreases mx, subnet
  {
    if subnet > 0 {
      MxCount(c, ipBaseMx, asn, mx, subnet - 1);
    } else if mx > 0 {
      MxCount(c, ipBaseMx, asn, mx - 1, c.mxSubnets);
      assert mx * c.mxSubnets == (mx - 1) * c.mxSubnets + c.mxSubnets;
    }
  }

  /** The k-th route is the k-th subnet, counted over all MX devices. */
  lemma {:induction false} MxRoutesInOrder(c: Config, ipBaseMx: nat, asn: Option<int>, mx: nat, subnet: nat, x: nat,
                                           s: nat, k: nat)
    requires subnet <= c.mxSubnets && s < c.mxSubnets && k == x * c.mxSubnets + s
    requires x < mx || (x == mx && s < subnet)
    ensures k < |MxRoutes(c, ipBaseMx, asn, mx, subnet)|
    ensures MxTells(c, ipBaseMx, asn, MxRoutes(c, ipBaseMx, asn, mx, subnet)[k], x, s)
    decreases mx, subnet
  {
    if subnet > 0 {
      MxCount(c, ipBaseMx, asn, mx, subnet - 1);
      if x == mx && s == subnet - 1 {
        MxRouteTells(c, ipBaseMx, asn, x, s);
      } else {
        MxRoutesInOrder(c, ipBaseMx, asn, mx, subnet - 1, x, s, k);
      }
    } else {
      MxRoutesInOrder(c, ipBaseMx, asn, mx - 1, c.mxSubnets, x, s, k);
    }
  }

  /** No other route is announced: each one tells its device and its place. */
  lemma {:induction false} MxRoutesTell(c: Config, ipBaseMx: nat, asn: Option<int>, mx: nat, subnet: nat, r: M0Route)
    returns (x: nat, s: nat)
    requires subnet <= c.mxSubnets && r in MxRoutes(c, ipBaseMx, asn, mx, subnet)
    ensures (x < mx || (x == mx && s < subnet)) && s < c.mxSubnets && MxTells(c, ipBaseMx, asn, r, x, s)
    decreases mx, subnet
  {
    if subnet > 0 {
      if r in MxRoutes(c, ipBaseMx, asn, mx, subnet - 1) {
        x, s := MxRoutesTell(c, ipBaseMx, asn, mx, subnet - 1, r);
      } else {
        x, s := mx, subnet - 1;
        MxRouteTells(c, ipBaseMx, asn, x, s);
      }
    } else {
      x, s := MxRoutesTell(c, ipBaseMx, asn, mx - 1, c.mxSubnets, r);
    }
  }

  /** A direct subnet of an M0 device. */
  ghost predicate DirectTells(c: Config, offset: nat, asn: Option<int>, r: M0Route, subnet: nat) {
    && r.prefix.addr == c.base + offset + subnet * c.m0Size
    && r.prefix.width == c.width
    && r.prefix.HostBits() == (if FloorLog2(c.m0Size) <= c.width then FloorLog2(c.m0Size) else c.width)
    && r.nexthop == c.nexthop
    && (if asn.Some? then r.aspath == Some([asn.value]) else r.aspath.None?)
  }

  lemma {:induction false} SubnetRoutesTell(c: Config, offset: nat, asn: Option<int>, count: nat, r: M0Route)
    returns (s: nat)
    requires r in SubnetRoutes(c, offset, asn, count)
    ensures s < count && DirectTells(c, offset, asn, r, s)
  {
    if r in SubnetRoutes(c, offset, asn, count - 1) {
      s := SubnetRoutesTell(c, offset, asn, count - 1, r);
    } else {
      s := count - 1;
      StepsIs(s, c.m0Size);
    }
  }

  /** A route of an M0 device: one of its own subnets, or one of its MX devices' behind them. */
  ghost predicate RangeTells(c: Config, offset: nat, asn: Option<int>, r: M0Route) {
    || (exists s: nat :: s < c.m0Subnets && DirectTells(c, offset, asn, r, s))
    || (exists mx: nat, s: nat :: mx < c.mxs && s < c.mxSubnets && BehindDirect(c, offset, asn, r, mx, s))
  }

  ghost predicate BehindDirect(c: Config, offset: nat, asn: Option<int>, r: M0Route, mx: nat, subnet: nat) {
    MxTells(c, MxBase(c, LastPrefix(SubnetRoutes(c, offset, asn, c.m0Subnets))), asn, r, mx, subnet)
  }

  lemma RangeRoutesTell(c: Config, offset: nat, asn: Option<int>, direct: seq<M0Route>, ipBaseMx: nat, r: M0Route)
    requires direct == SubnetRoutes(c, offset, asn, c.m0Subnets) && ipBaseMx == MxBase(c, LastPrefix(direct))
    requires r in direct || r in MxRoutes(c, ipBaseMx, asn, c.mxs, 0)
    ensures RangeTells(c, offset, asn, r)
  {
    if r in direct {
      var s := SubnetRoutesTell(c, offset, asn, c.m0Subnets, r);
    } else {
      var mx, s := MxRoutesTell(c, ipBaseMx, asn, c.mxs, 0, r);
      assert BehindDirect(c, offset, asn, r, mx, s);
    }
  }

  /** A route of the M0 device at (colo, m0), whose range is one of equal length for each device before it. */
  ghost predicate DeviceTells(c: Config, colo: nat, m0: nat, r: M0Route) {
    RangeTells(c, (colo * c.m0s + m0) * c.PerM0(), Some(c.m0AsnStart + m0), r)
  }

  lemma DevicePosition(c: Config, colo: nat, m0: nat)
    ensures Steps(DeviceIndex(c, colo, m0), c.PerM0()) == (colo * c.m0s + m0) * c.PerM0()
  {
    DeviceIndexIs(c, colo, m0);
    StepsIs(DeviceIndex(c, colo, m0), c.PerM0());
  }

  lemma DeviceRoutesTell(c: Config, colo: nat, m0: nat, r: M0Route)
    requires r in DeviceRoutesAt(c, c.PerM0(), colo, m0)
    ensures (colo > 0 || m0 > 0) && DeviceTells(c, colo, m0, r)
  {
    DevicePosition(c, colo, m0);
    var offset, asn := (colo * c.m0s + m0) * c.PerM0(), Some(c.m0AsnStart + m0);
    var direct := SubnetRoutes(c, offset, asn, c.m0Subnets);
    RangeRoutesTell(c, offset, asn, direct, MxBase(c, LastPrefix(direct)), r);
  }

  lemma {:induction false} UpstreamTells(c: Config, colo: nat, m0: nat, r: M0Route)
    returns (x: nat, y: nat)
    requires m0 <= c.m0s && r in UpstreamUpTo(c, c.PerM0(), colo, m0)
    ensures (x < colo || (x == colo && y < m0)) && y < c.m0s && (x > 0 || y > 0) && DeviceTells(c, x, y, r)
    decreases colo, m0
  {
    if m0 > 0 {
      if r in UpstreamUpTo(c, c.PerM0(), colo, m0 - 1) {
        x, y := UpstreamTells(c, colo, m0 - 1, r);
      } else {
        x, y := colo, m0 - 1;
        DeviceRoutesTell(c, x, y, r);
      }
    } else {
      x, y := UpstreamTells(c, colo - 1, c.m0s, r);
    }
  }

  /**
   An upstream route is the default route, without a path, or belongs to an M0 device other than the DUT: its path is
   that device's ASN, followed by the MX device's for a subnet behind one.
   */
  lemma UpstreamPaths(c: Config, r: M0Route)
    requires r in UpstreamRoutes(c)
    ensures || r == M0Route(Cidr(0, 0, c.width), c.nexthop, None)
            || exists colo: nat, m0: nat ::
                colo < c.colos && m0 < c.m0s && (colo > 0 || m0 > 0) && DeviceTells(c, colo, m0, r)
  {
    if r in UpstreamUpTo(c, c.PerM0(), c.colos, 0) {
      var colo, m0 := UpstreamTells(c, c.colos, 0, r);
    }
  }

  /** What an MX VM announces: its own subnets behind all direct ones, without a path. */
  lemma {:induction false} DownstreamTells(c: Config, mxIndex: nat, count: nat, k: nat)
    requires k < count
    ensures |DownstreamRoutes(c, c.DirectCount(), mxIndex, count)| == count
    ensures var r := DownstreamRoutes(c, c.DirectCount(), mxIndex, count)[k];
            && r.prefix.addr == c.base + c.m0Subnets * c.m0Size + (mxIndex * c.mxSubnets + k) * c.mxSize
            && r.nexthop == c.nexthop && r.aspath.None?
  {
    MxPosition(c, mxIndex, k);
    if k < count - 1 {
      DownstreamTells(c, mxIndex, count - 1, k);
    } else {
      DownstreamCount(c, mxIndex, count - 1);
    }
  }

  lemma {:induction false} DownstreamCount(c: Config, mxIndex: nat, count: nat)
    ensures |DownstreamRoutes(c, c.DirectCount(), mxIndex, count)| == count
  {
    if count > 0 { DownstreamCount(c, mxIndex, count - 1); }
  }
}
