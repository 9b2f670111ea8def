/** The M0 and MX announcements tile one contiguous address range. */
module M0Tiling {
  import opened Common
  import opened Routes
  import opened M0Routes

  // ---- chains of adjacent blocks ----

  /** The blocks are adjacent, the first starting at lo and the last ending at hi. */
  ghost predicate Chain(rs: seq<M0Route>, lo: int, hi: int) {
    && (rs == [] ==> lo == hi)
    && (rs != [] ==> rs[0].prefix.Start() == lo && rs[|rs| - 1].prefix.End() == hi)
    && forall i, j :: 0 <= i < |rs| && 0 <= j < |rs| && j == i + 1 ==> rs[i].prefix.End() == rs[j].prefix.Start()
  }

  lemma ChainAppend(rs: seq<M0Route>, r: M0Route, lo: int)
    requires Chain(rs, lo, r.prefix.Start())
    ensures Chain(rs + [r], lo, r.prefix.End())
  {
  }

  lemma ChainConcat(xs: seq<M0Route>, ys: seq<M0Route>, lo: int, mid: int, hi: int)
    requires Chain(xs, lo, mid) && Chain(ys, mid, hi)
    ensures Chain(xs + ys, lo, hi)
  {
    if xs == [] {
      assert xs + ys == ys;
    }
    if ys == [] {
      assert xs + ys == xs;
    }
  }

  lemma ChainInit(rs: seq<M0Route>, lo: int, hi: int)
    requires Chain(rs, lo, hi) && rs != []
    ensures Chain(rs[..|rs| - 1], lo, rs[|rs| - 1].prefix.Start()) && rs[|rs| - 1].prefix.End() == hi
  {
  }

  /** Blocks of a chain lie in order inside its range. */
  lemma {:induction false} ChainOrdered(rs: seq<M0Route>, lo: int, hi: int)
    requires Chain(rs, lo, hi)
    ensures lo <= hi
    ensures forall i :: 0 <= i < |rs| ==> lo <= rs[i].prefix.Start() < rs[i].prefix.End() <= hi
    ensures forall i, j :: 0 <= i < j < |rs| ==> rs[i].prefix.End() <= rs[j].prefix.Start()
  {
    if rs == [] {
    } else {
      ChainInit(rs, lo, hi);
      ChainOrdered(rs[..|rs| - 1], lo, rs[|rs| - 1].prefix.Start());
    }
  }

  lemma {:induction false} ChainReaches(rs: seq<M0Route>, lo: int, hi: int, a: int) returns (i: nat)
    requires Chain(rs, lo, hi) && lo <= a < hi
    ensures i < |rs| && rs[i].prefix.Contains(a)
  {
    ChainInit(rs, lo, hi);
    var last := rs[|rs| - 1].prefix;
    if a >= last.Start() {
      i := |rs| - 1;
    } else {
      i := ChainReaches(rs[..|rs| - 1], lo, last.Start(), a);
    }
  }

  ghost predicate HeldAt(rs: seq<M0Route>, i: int, a: int) {
    0 <= i < |rs| && rs[i].prefix.Contains(a)
  }

  ghost predicate Held(rs: seq<M0Route>, a: int) {
    exists i :: HeldAt(rs, i, a)
  }

  /** Every address of the range lies in exactly one block, and every other address in none. */
  ghost predicate Tiling(rs: seq<M0Route>, lo: int, hi: int) {
    && (forall a :: lo <= a < hi <==> Held(rs, a))
    && (forall a, i, j :: HeldAt(rs, i, a) && HeldAt(rs, j, a) ==> i == j)
  }

  lemma ChainTiles(rs: seq<M0Route>, lo: int, hi: int)
    requires Chain(rs, lo, hi)
    ensures Tiling(rs, lo, hi)
  {
    ChainOrdered(rs, lo, hi);
    forall a ensures lo <= a < hi <==> Held(rs, a) {
      if lo <= a < hi {
        var i := ChainReaches(rs, lo, hi, a);
        assert HeldAt(rs, i, a);
      }
    }
  }

  // ---- one block ----

  lemma {:induction false} ClearBitsKeepsAligned(a: nat, bits: nat)
    ensures a % Pow2(bits) == 0 ==> ClearBits(a, bits) == a
    ensures ClearBits(a, bits) <= a < ClearBits(a, bits) + Pow2(bits)
  {
    if bits == 0 {
    } else {
      ClearBitsKeepsAligned(a / 2, bits - 1);
      if a % Pow2(bits) == 0 {
        HalfAligned(a, Pow2(bits - 1));
      }
    }
  }

  lemma HalfAligned(a: nat, m: nat)
    requires m > 0 && a % (2 * m) == 0
    ensures a % 2 == 0 && (a / 2) % m == 0
  {
    var q := a / (2 * m);
    assert a == q * (2 * m);
    assert a == 2 * (q * m);
    MultipleMod(q, m);
  }

  /** The prefix denotes the block from lo to hi. */
  ghost predicate Denotes(r: M0Route, lo: int, hi: int) {
    r.prefix.Start() == lo && r.prefix.End() == hi
  }

  /** An aligned prefix denotes the block that starts at its own address. */
  lemma AlignedPrefix(size: Positive, ipBase: nat, offset: nat, width: nat)
    requires PowerOfTwo(size) && FloorLog2(size) <= width && (ipBase + offset) % size == 0
    ensures var p := GeneratePrefix(size, ipBase, offset, width);
            p.Start() == ipBase + offset && p.End() == ipBase + offset + size
  {
    var p := GeneratePrefix(size, ipBase, offset, width);
    assert p.HostBits() == FloorLog2(size);
    ClearBitsKeepsAligned(ipBase + offset, FloorLog2(size));
  }

  // ---- runs of equal blocks ----

  lemma {:induction false} StepsMultiple(k: nat, n: nat, m: nat)
    requires m > 0 && n % m == 0
    ensures Steps(k, n) % m == 0
  {
    if k == 0 {
    } else {
      StepsMultiple(k - 1, n, m);
      ModAdd(Steps(k - 1, n), n, m);
    }
  }

  /** Every direct subnet behind the offset stands where it should. */
  ghost predicate DirectFits(c: Config, offset: nat, asn: Option<int>) {
    forall k: nat :: Denotes(DirectRouteAt(c, offset, asn, k),
                             c.base + offset + Steps(k, c.m0Size), c.base + offset + Steps(k + 1, c.m0Size))
  }

  lemma AlignedDirectFits(c: Config, offset: nat, asn: Option<int>)
    requires PowerOfTwo(c.m0Size) && FloorLog2(c.m0Size) <= c.width && (c.base + offset) % c.m0Size == 0
    ensures DirectFits(c, offset, asn)
  {
    forall k: nat
      ensures Denotes(DirectRouteAt(c, offset, asn, k), c.base + offset + Steps(k, c.m0Size),
              c.base + offset + Steps(k + 1, c.m0Size))
    {
      StepsMultiple(k, c.m0Size, c.m0Size);
      ModAdd(c.base + offset, Steps(k, c.m0Size), c.m0Size);
      AlignedPrefix(c.m0Size, c.base, offset + Steps(k, c.m0Size), c.width);
    }
  }

  lemma {:induction false} DirectChain(c: Config, offset: nat, asn: Option<int>, count: nat)
    requires DirectFits(c, offset, asn)
    ensures Chain(SubnetRoutes(c, offset, asn, count), c.base + offset, c.base + offset + Steps(count, c.m0Size))
  {
    if count == 0 {
    } else {
      DirectChain(c, offset, asn, count - 1);
      var last := DirectRouteAt(c, offset, asn, count - 1);
      assert Denotes(last, c.base + offset + Steps(count - 1, c.m0Size),
             c.base + offset + Steps(count - 1 + 1, c.m0Size));
      ChainAppend(SubnetRoutes(c, offset, asn, count - 1), last, c.base + offset);
    }
  }

  lemma {:induction false} MxOffsetMultiple(c: Config, mx: nat, subnet: nat)
    ensures MxOffset(c, mx, subnet) % c.mxSize == 0
    decreases mx, subnet
  {
    if subnet > 0 {
      MxOffsetMultiple(c, mx, subnet - 1);
      ModAdd(MxOffset(c, mx, subnet - 1), c.mxSize, c.mxSize);
    } else if mx > 0 {
      MxOffsetMultiple(c, mx - 1, c.mxSubnets);
    }
  }

  ghost predicate MxFits(c: Config, ipBaseMx: nat, asn: Option<int>) {
    forall mx: nat, k: nat :: Denotes(MxRouteAt(c, ipBaseMx, asn, mx, k),
                                      ipBaseMx + MxOffset(c, mx, k), ipBaseMx + MxOffset(c, mx, k + 1))
  }

  lemma AlignedMxPosition(c: Config, lo: nat, mx: nat, k: nat)
    requires lo % c.mxSize == 0
    ensures (lo + MxOffset(c, mx, k)) % c.mxSize == 0
  {
    MxOffsetMultiple(c, mx, k);
    ModAdd(lo, MxOffset(c, mx, k), c.mxSize);
  }

  lemma AlignedMxFits(c: Config, ipBaseMx: nat, asn: Option<int>)
    requires PowerOfTwo(c.mxSize) && FloorLog2(c.mxSize) <= c.width && ipBaseMx % c.mxSize == 0
    ensures MxFits(c, ipBaseMx, asn)
  {
    forall mx: nat, k: nat
      ensures Denotes(MxRouteAt(c, ipBaseMx, asn, mx, k), ipBaseMx + MxOffset(c, mx, k),
              ipBaseMx + MxOffset(c, mx, k + 1))
    {
      AlignedMxPosition(c, ipBaseMx, mx, k);
      AlignedPrefix(c.mxSize, ipBaseMx, MxOffset(c, mx, k), c.width);
    }
  }

  lemma {:induction false} MxChain(c: Config, ipBaseMx: nat, asn: Option<int>, mx: nat, subnet: nat)
    requires MxFits(c, ipBaseMx, asn)
    ensures Chain(MxRoutes(c, ipBaseMx, asn, mx, subnet), ipBaseMx, ipBaseMx + MxOffset(c, mx, subnet))
    decreases mx, subnet
  {
    if subnet > 0 {
      MxChain(c, ipBaseMx, asn, mx, subnet - 1);
      var last := MxRouteAt(c, ipBaseMx, asn, mx, subnet - 1);
      assert Denotes(last, ipBaseMx + MxOffset(c, mx, subnet - 1), ipBaseMx + MxOffset(c, mx, subnet - 1 + 1));
      ChainAppend(MxRoutes(c, ipBaseMx, asn, mx, subnet - 1), last, ipBaseMx);
    } else if mx > 0 {
      MxChain(c, ipBaseMx, asn, mx - 1, c.mxSubnets);
    }
  }

  // ---- one device ----

  /** The counts as the loops use them. */
  ghost predicate Counts(c: Config, direct: nat, perM0: nat) {
    && direct == Steps(c.m0Subnets, c.m0Size) && perM0 == direct + MxOffset(c, c.mxs, 0)
  }

  lemma CountsAre(c: Config)
    ensures Counts(c, c.DirectCount(), c.PerM0())
  {
    StepsIs(c.m0Subnets, c.m0Size);
    MxOffsetIs(c, c.PerMx(), c.mxs, 0);
    Associate(c.mxs, c.mxSubnets, c.mxSize);
  }

  lemma Associate(x: nat, y: nat, z: nat)
    ensures x * (y * z) == x * y * z
  {
  }

  /** A device at this offset can place its blocks behind each other. */
  ghost predicate DeviceAligned(c: Config, direct: nat, offset: nat) {
    && c.Sized()
    && (c.m0Subnets > 0 ==> (c.base + offset) % c.m0Size == 0)
    && (c.HasMx() ==> (c.base + offset + direct) % c.mxSize == 0)
  }

  /** Without MX subnets there is nothing to place. */
  lemma {:induction false} NoMxRoutes(c: Config, ipBaseMx: nat, asn: Option<int>, mx: nat)
    requires !c.HasMx() && mx <= c.mxs
    ensures MxRoutes(c, ipBaseMx, asn, mx, 0) == [] && MxOffset(c, mx, 0) == 0
  {
    if mx > 0 {
      NoMxRoutes(c, ipBaseMx, asn, mx - 1);
    }
  }

  lemma DirectPart(c: Config, direct: nat, offset: nat, asn: Option<int>)
    requires DeviceAligned(c, direct, offset)
    ensures Chain(SubnetRoutes(c, offset, asn, c.m0Subnets), c.base + offset,
            c.base + offset + Steps(c.m0Subnets, c.m0Size))
  {
    if c.m0Subnets > 0 {
      AlignedDirectFits(c, offset, asn);
      DirectChain(c, offset, asn, c.m0Subnets);
    }
  }

  lemma MxPart(c: Config, lo: nat, asn: Option<int>)
    requires c.Sized() && (c.HasMx() ==> lo % c.mxSize == 0)
    ensures c.HasMx() ==> Chain(MxRoutes(c, lo, asn, c.mxs, 0), lo, lo + MxOffset(c, c.mxs, 0))
    ensures !c.HasMx() ==>
              MxOffset(c, c.mxs, 0) == 0 && forall ipBaseMx: nat :: MxRoutes(c, ipBaseMx, asn, c.mxs, 0) == []
  {
    if c.HasMx() {
      AlignedMxFits(c, lo, asn);
      MxChain(c, lo, asn, c.mxs, 0);
    } else {
      NoMxRoutes(c, lo, asn, c.mxs);
      forall ipBaseMx: nat ensures MxRoutes(c, ipBaseMx, asn, c.mxs, 0) == [] {
        NoMxRoutes(c, ipBaseMx, asn, c.mxs);
      }
    }
  }

  /** The MX subnets start right behind the last direct one. */
  lemma MxBaseFollows(c: Config, offset: nat, asn: Option<int>)
    requires DirectFits(c, offset, asn) && c.m0Subnets >= 1
    ensures MxBase(c, LastPrefix(SubnetRoutes(c, offset, asn, c.m0Subnets)))
            == c.base + offset + Steps(c.m0Subnets, c.m0Size)
  {
    var k: nat := c.m0Subnets - 1;
    assert Denotes(DirectRouteAt(c, offset, asn, k), c.base + offset + Steps(k, c.m0Size),
           c.base + offset + Steps(k + 1, c.m0Size));
  }

  lemma DeviceChain(c: Config, direct: nat, perM0: nat, offset: nat, asn: Option<int>)
    requires Counts(c, direct, perM0) && DeviceAligned(c, direct, offset) && (c.HasMx() ==> c.m0Subnets > 0)
    ensures Chain(DeviceRoutes(c, offset, asn), c.base + offset, c.base + offset + perM0)
  {
    var mid := c.base + offset + direct;
    var routes := SubnetRoutes(c, offset, asn, c.m0Subnets);
    DirectPart(c, direct, offset, asn);
    MxPart(c, mid, asn);
    if c.HasMx() {
      AlignedDirectFits(c, offset, asn);
      MxBaseFollows(c, offset, asn);
      ChainConcat(routes, MxRoutes(c, mid, asn, c.mxs, 0), c.base + offset, mid, mid + MxOffset(c, c.mxs, 0));
    } else {
      assert DeviceRoutes(c, offset, asn) == routes;
    }
  }

  // ---- all devices ----

  ghost predicate DeviceFills(c: Config, perM0: nat, colo: nat, m0: nat) {
    Chain(DeviceRoutesAt(c, perM0, colo, m0),
          c.base + Steps(DeviceIndex(c, colo, m0), perM0), c.base + Steps(DeviceIndex(c, colo, m0) + 1, perM0))
  }

  /** Every device but the DUT fills its own range. */
  ghost predicate DevicesFill(c: Config, perM0: nat) {
    forall colo: nat, m0: nat :: (colo == 0 && m0 == 0) || DeviceFills(c, perM0, colo, m0)
  }

  /** Where the second device can stand, all can. */
  lemma AlignedDevices(c: Config, direct: nat, perM0: nat, k: nat)
    requires c.Sized() && c.Adjoining() && direct == c.DirectCount() && perM0 == c.PerM0()
             && (k > 0 ==> c.colos * c.m0s > 1)
    ensures DeviceAligned(c, direct, Steps(k, perM0))
  {
    if k > 0 && c.m0Subnets > 0 {
      MultipleMod(c.m0Subnets, c.m0Size);
      ModAdd(direct, c.MxCount(), c.m0Size);
      StepsMultiple(k, perM0, c.m0Size);
      ModAdd(c.base, Steps(k, perM0), c.m0Size);
    }
    if k > 0 && c.HasMx() {
      MultipleMod(c.mxs * c.mxSubnets, c.mxSize);
      ModAdd(direct, c.MxCount(), c.mxSize);
      StepsMultiple(k, perM0, c.mxSize);
      ModAdd(c.base + direct, Steps(k, perM0), c.mxSize);
    }
  }

  lemma AlignedDeviceFills(c: Config, direct: nat, perM0: nat, colo: nat, m0: nat)
    requires c.Sized() && c.Adjoining() && c.colos * c.m0s > 1 && direct == c.DirectCount() && perM0 == c.PerM0()
    requires !(colo == 0 && m0 == 0)
    ensures DeviceFills(c, perM0, colo, m0)
  {
    var k := DeviceIndex(c, colo, m0);
    CountsAre(c);
    AlignedDevices(c, direct, perM0, k);
    DeviceChain(c, direct, perM0, Steps(k, perM0), Some(c.m0AsnStart + m0));
  }

  lemma AlignedDevicesFill(c: Config)
    requires c.Sized() && c.Adjoining() && c.colos * c.m0s > 1
    ensures DevicesFill(c, c.PerM0())
  {
    forall colo: nat, m0: nat | !(colo == 0 && m0 == 0)
      ensures DeviceFills(c, c.PerM0(), colo, m0)
    {
      AlignedDeviceFills(c, c.DirectCount(), c.PerM0(), colo, m0);
    }
  }

  ghost predicate UpstreamFills(c: Config, perM0: nat, colo: nat, m0: nat) {
    Chain(UpstreamUpTo(c, perM0, colo, m0), c.base + perM0, c.base + Steps(DeviceIndex(c, colo, m0), perM0))
  }

  lemma FirstDeviceFills(c: Config, perM0: nat)
    ensures UpstreamFills(c, perM0, 0, 1)
  {
    FirstUpstream(c, perM0);
    assert DeviceIndex(c, 0, 1) == 1 && Steps(1, perM0) == perM0;
  }

  lemma NextUpstream(c: Config, perM0: nat, colo: nat, m0: nat)
    ensures UpstreamUpTo(c, perM0, colo, m0 + 1)
            == UpstreamUpTo(c, perM0, colo, m0) + DeviceRoutesAt(c, perM0, colo, m0)
    ensures DeviceIndex(c, colo, m0 + 1) == DeviceIndex(c, colo, m0) + 1
  {
  }

  lemma NextDeviceFills(c: Config, perM0: nat, colo: nat, m0: nat)
    requires DeviceFills(c, perM0, colo, m0) && UpstreamFills(c, perM0, colo, m0)
    ensures UpstreamFills(c, perM0, colo, m0 + 1)
  {
    NextUpstream(c, perM0, colo, m0);
    var k := DeviceIndex(c, colo, m0);
    var xs, ys := UpstreamUpTo(c, perM0, colo, m0), DeviceRoutesAt(c, perM0, colo, m0);
    var mid, hi := c.base + Steps(k, perM0), c.base + Steps(k + 1, perM0);
    ChainConcat(xs, ys, c.base + perM0, mid, hi);
  }

  lemma NextColoFills(c: Config, perM0: nat, colo: nat)
    requires UpstreamFills(c, perM0, colo, c.m0s)
    ensures UpstreamFills(c, perM0, colo + 1, 0)
  {
    assert DeviceIndex(c, colo + 1, 0) == DeviceIndex(c, colo, c.m0s);
    assert UpstreamUpTo(c, perM0, colo + 1, 0) == UpstreamUpTo(c, perM0, colo, c.m0s);
  }

  lemma FillsUpTo(c: Config, perM0: nat, colo: nat, m0: nat)
    requires DevicesFill(c, perM0) && m0 > 0 && !(colo == 0 && m0 == 1) && UpstreamFills(c, perM0, colo, m0 - 1)
    ensures UpstreamFills(c, perM0, colo, m0)
  {
    assert DeviceFills(c, perM0, colo, m0 - 1);
    NextDeviceFills(c, perM0, colo, m0 - 1);
  }

  lemma {:induction false} UpstreamChain(c: Config, perM0: nat, colo: nat, m0: nat)
    requires DevicesFill(c, perM0) && c.m0s >= 1 && (colo > 0 || m0 > 0)
    ensures UpstreamFills(c, perM0, colo, m0)
    decreases colo, m0
  {
    if m0 == 0 {
      UpstreamChain(c, perM0, colo - 1, c.m0s);
      NextColoFills(c, perM0, colo - 1);
    } else if colo == 0 && m0 == 1 {
      FirstDeviceFills(c, perM0);
    } else {
      UpstreamChain(c, perM0, colo, m0 - 1);
      FillsUpTo(c, perM0, colo, m0);
    }
  }

  /** The DUT itself contributes nothing. */
  lemma FirstUpstream(c: Config, perM0: nat)
    ensures UpstreamUpTo(c, perM0, 0, 1) == []
  {
    assert UpstreamUpTo(c, perM0, 0, 0) == [] && DeviceRoutesAt(c, perM0, 0, 0) == [];
  }

  // ---- how many routes ----

  lemma {:induction false} SubnetsLength(c: Config, offset: nat, asn: Option<int>, count: nat)
    ensures |SubnetRoutes(c, offset, asn, count)| == count
  {
    if count == 0 {
    } else {
      SubnetsLength(c, offset, asn, count - 1);
    }
  }

  lemma {:induction false} MxLength(c: Config, ipBaseMx: nat, asn: Option<int>, mx: nat, subnet: nat)
    ensures |MxRoutes(c, ipBaseMx, asn, mx, subnet)| == Steps(mx, c.mxSubnets) + subnet
    decreases mx, subnet
  {
    if subnet > 0 {
      MxLength(c, ipBaseMx, asn, mx, subnet - 1);
    } else if mx > 0 {
      MxLength(c, ipBaseMx, asn, mx - 1, c.mxSubnets);
    }
  }

  lemma DeviceLength(c: Config, offset: nat, asn: Option<int>)
    ensures |DeviceRoutes(c, offset, asn)| == c.m0Subnets + c.mxs * c.mxSubnets
  {
    var direct := SubnetRoutes(c, offset, asn, c.m0Subnets);
    SubnetsLength(c, offset, asn, c.m0Subnets);
    MxLength(c, MxBase(c, LastPrefix(direct)), asn, c.mxs, 0);
    StepsIs(c.mxs, c.mxSubnets);
  }

  ghost predicate EachAnnounces(c: Config, perM0: nat, each: nat) {
    forall colo: nat, m0: nat :: (colo == 0 && m0 == 0) || |DeviceRoutesAt(c, perM0, colo, m0)| == each
  }

  lemma EachLength(c: Config, perM0: nat)
    ensures EachAnnounces(c, perM0, c.m0Subnets + c.mxs * c.mxSubnets)
  {
    forall colo: nat, m0: nat | !(colo == 0 && m0 == 0)
      ensures |DeviceRoutesAt(c, perM0, colo, m0)| == c.m0Subnets + c.mxs * c.mxSubnets
    {
      DeviceLength(c, Steps(DeviceIndex(c, colo, m0), perM0), Some(c.m0AsnStart + m0));
    }
  }

  ghost predicate UpstreamCounts(c: Config, perM0: nat, each: nat, colo: nat, m0: nat) {
    |UpstreamUpTo(c, perM0, colo, m0)| + each == Steps(DeviceIndex(c, colo, m0), each)
  }

  lemma FirstDeviceCounts(c: Config, perM0: nat, each: nat)
    ensures UpstreamCounts(c, perM0, each, 0, 1)
  {
    FirstUpstream(c, perM0);
    assert DeviceIndex(c, 0, 1) == 1 && Steps(1, each) == each;
  }

  lemma NextDeviceCounts(c: Config, perM0: nat, each: nat, colo: nat, m0: nat)
    requires EachAnnounces(c, perM0, each) && !(colo == 0 && m0 == 0) && UpstreamCounts(c, perM0, each, colo, m0)
    ensures UpstreamCounts(c, perM0, each, colo, m0 + 1)
  {
    assert |DeviceRoutesAt(c, perM0, colo, m0)| == each;
  }

  lemma NextColoCounts(c: Config, perM0: nat, each: nat, colo: nat)
    requires UpstreamCounts(c, perM0, each, colo, c.m0s)
    ensures UpstreamCounts(c, perM0, each, colo + 1, 0)
  {
    assert DeviceIndex(c, colo + 1, 0) == DeviceIndex(c, colo, c.m0s);
    assert UpstreamUpTo(c, perM0, colo + 1, 0) == UpstreamUpTo(c, perM0, colo, c.m0s);
  }

  lemma {:induction false} UpstreamLength(c: Config, perM0: nat, each: nat, colo: nat, m0: nat)
    requires EachAnnounces(c, perM0, each) && c.m0s >= 1 && (colo > 0 || m0 > 0)
    ensures UpstreamCounts(c, perM0, each, colo, m0)
    decreases colo, m0
  {
    if m0 == 0 {
      UpstreamLength(c, perM0, each, colo - 1, c.m0s);
      NextColoCounts(c, perM0, each, colo - 1);
    } else if colo == 0 && m0 == 1 {
      FirstDeviceCounts(c, perM0, each);
    } else {
      UpstreamLength(c, perM0, each, colo, m0 - 1);
      NextDeviceCounts(c, perM0, each, colo, m0 - 1);
    }
  }

  /** The M1 devices announce a default route and, for every M0 but the DUT, its direct and MX subnets. */
  lemma UpstreamCount(c: Config)
    requires c.colos * c.m0s >= 1
    ensures |UpstreamRoutes(c)| == 1 + (c.colos * c.m0s - 1) * (c.m0Subnets + c.mxs * c.mxSubnets)
  {
    var n, each := c.colos * c.m0s, c.m0Subnets + c.mxs * c.mxSubnets;
    DeviceIndexIs(c, c.colos, 0);
    EachLength(c, c.PerM0());
    UpstreamLength(c, c.PerM0(), each, c.colos, 0);
    StepsIs(n, each);
    Distribute(n - 1, 1, each);
  }

  // ---- the whole range ----

  ghost predicate DownstreamFits(c: Config, direct: nat) {
    forall mx: nat, k: nat :: Denotes(DownstreamRouteAt(c, direct, mx, k),
                                      c.base + direct + MxOffset(c, mx, k), c.base + direct + MxOffset(c, mx, k + 1))
  }

  lemma AlignedDownstreamFits(c: Config, direct: nat)
    requires PowerOfTwo(c.mxSize) && FloorLog2(c.mxSize) <= c.width && (c.base + direct) % c.mxSize == 0
    ensures DownstreamFits(c, direct)
  {
    forall mx: nat, k: nat
      ensures Denotes(DownstreamRouteAt(c, direct, mx, k), c.base + direct + MxOffset(c, mx, k),
              c.base + direct + MxOffset(c, mx, k + 1))
    {
      AlignedMxPosition(c, c.base + direct, mx, k);
      AlignedPrefix(c.mxSize, c.base, direct + MxOffset(c, mx, k), c.width);
    }
  }

  lemma {:induction false} DownstreamChain(c: Config, direct: nat, mxIndex: nat, count: nat)
    requires DownstreamFits(c, direct)
    ensures Chain(DownstreamRoutes(c, direct, mxIndex, count),
                  c.base + direct + MxOffset(c, mxIndex, 0), c.base + direct + MxOffset(c, mxIndex, count))
  {
    if count == 0 {
    } else {
      DownstreamChain(c, direct, mxIndex, count - 1);
      var last := DownstreamRouteAt(c, direct, mxIndex, count - 1);
      assert Denotes(last, c.base + direct + MxOffset(c, mxIndex, count - 1),
             c.base + direct + MxOffset(c, mxIndex, count - 1 + 1));
      ChainAppend(DownstreamRoutes(c, direct, mxIndex, count - 1), last, c.base + direct + MxOffset(c, mxIndex, 0));
    }
  }

  /** What the first MX VMs announce, one after the other. */
  function AllDownstream(c: Config, direct: nat, mxs: nat): seq<M0Route> {
    if mxs == 0 then []
    else AllDownstream(c, direct, mxs - 1) + DownstreamRoutes(c, direct, mxs - 1, c.mxSubnets)
  }

  lemma AddMx(c: Config, direct: nat, rs: seq<M0Route>, mx: nat)
    requires DownstreamFits(c, direct) && Chain(rs, c.base + direct, c.base + direct + MxOffset(c, mx, 0))
    ensures Chain(rs + DownstreamRoutes(c, direct, mx, c.mxSubnets), c.base + direct,
            c.base + direct + MxOffset(c, mx + 1, 0))
  {
    DownstreamChain(c, direct, mx, c.mxSubnets);
    ChainConcat(rs, DownstreamRoutes(c, direct, mx, c.mxSubnets),
                c.base + direct, c.base + direct + MxOffset(c, mx, 0), c.base + direct + MxOffset(c, mx, c.mxSubnets));
  }

  lemma {:induction false} AllDownstreamChain(c: Config, direct: nat, mxs: nat)
    requires DownstreamFits(c, direct)
    ensures Chain(AllDownstream(c, direct, mxs), c.base + direct, c.base + direct + MxOffset(c, mxs, 0))
  {
    if mxs == 0 {
    } else {
      AllDownstreamChain(c, direct, mxs - 1);
      AddMx(c, direct, AllDownstream(c, direct, mxs - 1), mxs - 1);
    }
  }

  lemma {:induction false} NoDownstream(c: Config, direct: nat, mxs: nat)
    requires !c.HasMx() && mxs <= c.mxs
    ensures AllDownstream(c, direct, mxs) == []
  {
    if mxs > 0 {
      NoDownstream(c, direct, mxs - 1);
    }
  }

  lemma DownstreamPart(c: Config, direct: nat)
    requires c.Sized() && (c.HasMx() ==> (c.base + direct) % c.mxSize == 0)
    ensures Chain(AllDownstream(c, direct, c.mxs), c.base + direct, c.base + direct + MxOffset(c, c.mxs, 0))
  {
    if c.HasMx() {
      AlignedDownstreamFits(c, direct);
      AllDownstreamChain(c, direct, c.mxs);
    } else {
      NoDownstream(c, direct, c.mxs);
      NoMxRoutes(c, 0, None, c.mxs);
    }
  }

  /** The DUT's own blocks: its direct subnets and what its MX VMs announce. */
  function OwnBlocks(c: Config): seq<M0Route> {
    SubnetRoutes(c, 0, None, c.m0Subnets) + AllDownstream(c, c.DirectCount(), c.mxs)
  }

  /** The DUT's own blocks and what the M1 VMs announce. */
  function AllBlocks(c: Config): seq<M0Route> {
    OwnBlocks(c) + UpstreamUpTo(c, c.PerM0(), c.colos, 0)
  }

  /** Where the range of all devices ends. */
  function RangeEnd(c: Config): nat {
    c.base + c.colos * c.m0s * c.PerM0()
  }

  lemma OwnRangeChain(c: Config)
    requires DeviceAligned(c, c.DirectCount(), 0)
    ensures Chain(OwnBlocks(c), c.base, c.base + c.PerM0())
  {
    var direct := c.DirectCount();
    CountsAre(c);
    DirectPart(c, direct, 0, None);
    DownstreamPart(c, direct);
    ChainConcat(SubnetRoutes(c, 0, None, c.m0Subnets), AllDownstream(c, direct, c.mxs),
                c.base, c.base + direct, c.base + direct + MxOffset(c, c.mxs, 0));
  }

  lemma UpstreamRange(c: Config, perM0: nat)
    requires DevicesFill(c, perM0) && c.colos * c.m0s >= 1
    ensures Chain(UpstreamUpTo(c, perM0, c.colos, 0), c.base + perM0, c.base + c.colos * c.m0s * perM0)
  {
    DeviceIndexIs(c, c.colos, 0);
    UpstreamChain(c, perM0, c.colos, 0);
    StepsIs(c.colos * c.m0s, perM0);
  }

  lemma OneDevice(c: Config)
    requires c.colos * c.m0s == 1
    ensures c.colos == 1 && c.m0s == 1 && UpstreamUpTo(c, c.PerM0(), c.colos, 0) == []
            && RangeEnd(c) == c.base + c.PerM0()
  {
    if c.colos > 1 { MulMonotone(2, c.colos, c.m0s); }
    FirstUpstream(c, c.PerM0());
    assert UpstreamUpTo(c, c.PerM0(), 1, 0) == UpstreamUpTo(c, c.PerM0(), 0, 1);
  }

  /** Where each block can stand behind the one before it, the blocks are adjacent and span one range per device. */
  lemma AdjoiningChain(c: Config)
    requires c.Sized() && c.Adjoining() && c.colos * c.m0s >= 1
    ensures Chain(AllBlocks(c), c.base, RangeEnd(c))
  {
    AlignedDevices(c, c.DirectCount(), c.PerM0(), 0);
    OwnRangeChain(c);
    if c.colos * c.m0s == 1 {
      OneDevice(c);
      assert AllBlocks(c) == OwnBlocks(c);
    } else {
      AlignedDevicesFill(c);
      UpstreamRange(c, c.PerM0());
      ChainConcat(OwnBlocks(c), UpstreamUpTo(c, c.PerM0(), c.colos, 0), c.base, c.base + c.PerM0(), RangeEnd(c));
    }
  }

  // ---- where it breaks ----

  /** A prefix that is not aligned denotes a block that starts before its own address and still reaches it. */
  lemma UnalignedPrefix(size: Positive, ipBase: nat, offset: nat, width: nat)
    requires PowerOfTwo(size) && FloorLog2(size) <= width && (ipBase + offset) % size != 0
    ensures var p := GeneratePrefix(size, ipBase, offset, width);
            p.Start() < ipBase + offset && p.Contains(ipBase + offset - 1)
  {
    ReachesBack(Cidr(ipBase + offset, width - FloorLog2(size), width), size);
  }

  lemma ReachesBack(p: Cidr, size: nat)
    requires Pow2(p.HostBits()) == size && p.addr % size != 0
    ensures p.Start() < p.addr && p.Contains(p.addr - 1)
  {
    ClearBitsKeepsAligned(p.addr, p.HostBits());
    ClearedAligned(p.addr, p.HostBits());
  }

  lemma {:induction false} ClearedAligned(a: nat, bits: nat)
    ensures ClearBits(a, bits) % Pow2(bits) == 0
  {
    if bits > 0 {
      ClearedAligned(a / 2, bits - 1);
      DoubleMultiple(ClearBits(a / 2, bits - 1), Pow2(bits - 1));
    }
  }

  lemma DoubleMultiple(x: nat, m: nat)
    requires m > 0 && x % m == 0
    ensures (2 * x) % (2 * m) == 0
  {
    var q := x / m;
    assert x == q * m;
    assert 2 * x == q * (2 * m);
    MultipleMod(q, 2 * m);
  }

  /** One address held twice, or held outside the range, is no tiling. */
  lemma HeldTwice(rs: seq<M0Route>, lo: int, hi: int, a: int, i: int, j: int)
    requires HeldAt(rs, i, a) && HeldAt(rs, j, a) && i != j
    ensures !Tiling(rs, lo, hi)
  {
  }

  lemma HeldOutside(rs: seq<M0Route>, lo: int, hi: int, a: int, i: int)
    requires HeldAt(rs, i, a) && !(lo <= a < hi)
    ensures !Tiling(rs, lo, hi)
  {
    assert Held(rs, a);
  }

  /** The first blocks of a row of subnets, of the MX VMs, and of a device. */
  lemma {:induction false} FirstSubnet(c: Config, offset: nat, asn: Option<int>, count: nat)
    requires count > 0
    ensures |SubnetRoutes(c, offset, asn, count)| == count
    ensures SubnetRoutes(c, offset, asn, count)[0] == DirectRouteAt(c, offset, asn, 0)
    ensures SubnetRoutes(c, offset, asn, count)[count - 1] == DirectRouteAt(c, offset, asn, count - 1)
  {
    if count > 1 {
      FirstSubnet(c, offset, asn, count - 1);
    }
  }

  lemma {:induction false} FirstDownstream(c: Config, direct: nat, mxs: nat)
    requires c.mxSubnets > 0 && mxs > 0
    ensures AllDownstream(c, direct, mxs) != []
            && AllDownstream(c, direct, mxs)[0] == DownstreamRouteAt(c, direct, 0, 0)
  {
    if mxs == 1 {
      FirstOfVm(c, direct, 0, c.mxSubnets);
      assert AllDownstream(c, direct, 0) == [];
    } else {
      FirstDownstream(c, direct, mxs - 1);
    }
  }

  lemma {:induction false} FirstOfVm(c: Config, direct: nat, mxIndex: nat, count: nat)
    requires count > 0
    ensures DownstreamRoutes(c, direct, mxIndex, count) != []
    ensures DownstreamRoutes(c, direct, mxIndex, count)[0] == DownstreamRouteAt(c, direct, mxIndex, 0)
  {
    if count > 1 {
      FirstOfVm(c, direct, mxIndex, count - 1);
    }
  }

  lemma {:induction false} FirstMx(c: Config, ipBaseMx: nat, asn: Option<int>, mx: nat, subnet: nat)
    requires c.mxSubnets > 0 && (mx > 0 || subnet > 0)
    ensures MxRoutes(c, ipBaseMx, asn, mx, subnet) != []
    ensures MxRoutes(c, ipBaseMx, asn, mx, subnet)[0] == MxRouteAt(c, ipBaseMx, asn, 0, 0)
    decreases mx, subnet
  {
    if subnet > 0 {
      if mx > 0 || subnet > 1 {
        FirstMx(c, ipBaseMx, asn, mx, subnet - 1);
      } else {
        assert MxRoutes(c, ipBaseMx, asn, 0, 0) == [];
      }
    } else {
      FirstMx(c, ipBaseMx, asn, mx - 1, c.mxSubnets);
    }
  }

  /** The M1 VMs announce the second device first. */
  lemma {:induction false} UpstreamStarts(c: Config, perM0: nat, colo: nat, m0: nat)
    returns (asn: Option<int>, post: seq<M0Route>)
    requires m0 <= c.m0s && c.m0s >= 1 && DeviceIndex(c, colo, m0) >= 2
    ensures UpstreamUpTo(c, perM0, colo, m0) == DeviceRoutes(c, perM0, asn) + post
    decreases colo, m0
  {
    if m0 == 0 {
      asn, post := UpstreamStarts(c, perM0, colo - 1, c.m0s);
    } else if DeviceIndex(c, colo, m0) == 2 {
      SecondDevice(c, perM0, colo, m0);
      asn, post := Some(c.m0AsnStart + m0 - 1), [];
      assert DeviceRoutes(c, perM0, asn) + post == DeviceRoutes(c, perM0, asn);
    } else {
      asn, post := UpstreamStarts(c, perM0, colo, m0 - 1);
      NextUpstream(c, perM0, colo, m0 - 1);
      Regroup(DeviceRoutes(c, perM0, asn), post, DeviceRoutesAt(c, perM0, colo, m0 - 1));
      post := post + DeviceRoutesAt(c, perM0, colo, m0 - 1);
    }
  }

  lemma Regroup(xs: seq<M0Route>, ys: seq<M0Route>, zs: seq<M0Route>)
    ensures xs + ys + zs == xs + (ys + zs)
  {
  }

  lemma SecondDevice(c: Config, perM0: nat, colo: nat, m0: nat)
    requires 0 < m0 <= c.m0s && DeviceIndex(c, colo, m0) == 2
    ensures UpstreamUpTo(c, perM0, colo, m0) == DeviceRoutes(c, perM0, Some(c.m0AsnStart + m0 - 1))
  {
    DeviceIndexIs(c, colo, m0);
    FirstUpstream(c, perM0);
    assert Steps(1, perM0) == perM0 && DeviceIndex(c, colo, m0 - 1) == 1;
    if colo == 0 {
      assert m0 == 2;
    } else {
      if colo > 1 { MulMonotone(2, colo, c.m0s); }
      assert colo == 1 && c.m0s == 1 && m0 == 1;
      assert UpstreamUpTo(c, perM0, 1, 0) == UpstreamUpTo(c, perM0, 0, 1);
    }
    assert UpstreamUpTo(c, perM0, colo, m0 - 1) == [];
  }

  /** Adding a multiple changes no remainder of 0. */
  lemma SameMultiple(x: int, y: int, m: int)
    requires m > 0 && x % m == 0 && (x + y) % m == 0
    ensures y % m == 0
  {
    assert -x == (-(x / m)) * m;
    MultipleMod(-(x / m), m);
    ModAdd(x + y, -x, m);
  }

  lemma FirstDirectOff(c: Config)
    requires c.Sized() && c.m0Subnets > 0 && c.base % c.m0Size != 0
    ensures !Tiling(AllBlocks(c), c.base, RangeEnd(c))
  {
    FirstSubnet(c, 0, None, c.m0Subnets);
    UnalignedPrefix(c.m0Size, c.base, 0, c.width);
    HeldOutside(AllBlocks(c), c.base, RangeEnd(c), c.base - 1, 0);
  }

  /** The first MX block of the DUT reaches back into its last direct one, or before the base. */
  lemma FirstMxOff(c: Config)
    requires c.Sized() && c.HasMx() && (c.base + c.DirectCount()) % c.mxSize != 0
    requires c.m0Subnets > 0 ==> c.base % c.m0Size == 0
    ensures !Tiling(AllBlocks(c), c.base, RangeEnd(c))
  {
    var direct, n := c.DirectCount(), c.m0Subnets;
    UnalignedPrefix(c.mxSize, c.base, direct, c.width);
    FirstDownstream(c, direct, c.mxs);
    if n == 0 {
      assert AllBlocks(c)[0] == DownstreamRouteAt(c, direct, 0, 0);
      HeldOutside(AllBlocks(c), c.base, RangeEnd(c), c.base - 1, 0);
    } else {
      FirstSubnet(c, 0, None, n);
      AlignedDirectFits(c, 0, None);
      StepsIs(n, c.m0Size);
      assert Denotes(DirectRouteAt(c, 0, None, n - 1), c.base + Steps(n - 1, c.m0Size),
             c.base + Steps(n - 1 + 1, c.m0Size));
      assert AllBlocks(c)[n] == DownstreamRouteAt(c, direct, 0, 0);
      HeldTwice(AllBlocks(c), c.base, RangeEnd(c), c.base + direct - 1, n - 1, n);
    }
  }

  /** The announcements of the second device follow the DUT's own blocks. */
  lemma SecondDeviceFollows(c: Config) returns (asn: Option<int>)
    requires c.colos * c.m0s > 1
    ensures var device := DeviceRoutes(c, c.PerM0(), asn);
            |OwnBlocks(c)| + |device| <= |AllBlocks(c)|
            && forall k :: 0 <= k < |device| ==> AllBlocks(c)[|OwnBlocks(c)| + k] == device[k]
    ensures forall k :: 0 <= k < |OwnBlocks(c)| ==> AllBlocks(c)[k] == OwnBlocks(c)[k]
  {
    DeviceIndexIs(c, c.colos, 0);
    var post;
    asn, post := UpstreamStarts(c, c.PerM0(), c.colos, 0);
  }

  lemma SecondDirectAddress(c: Config)
    requires c.m0Subnets > 0 && c.base % c.m0Size == 0 && c.MxCount() % c.m0Size != 0
    ensures (c.base + c.PerM0()) % c.m0Size != 0 && c.PerM0() > 0
  {
    MultipleMod(c.m0Subnets, c.m0Size);
    ModAdd(c.base, c.DirectCount(), c.m0Size);
    if (c.base + c.PerM0()) % c.m0Size == 0 { SameMultiple(c.base + c.DirectCount(), c.MxCount(), c.m0Size); }
    MulMonotone(1, c.m0Subnets, c.m0Size);
  }

  lemma OwnRangeHeld(c: Config, a: int) returns (i: nat)
    requires DeviceAligned(c, c.DirectCount(), 0) && c.base <= a < c.base + c.PerM0()
    ensures HeldAt(OwnBlocks(c), i, a)
  {
    OwnRangeChain(c);
    i := ChainReaches(OwnBlocks(c), c.base, c.base + c.PerM0(), a);
  }

  lemma FirstDirectReachesBack(c: Config, offset: nat, asn: Option<int>)
    requires c.Sized() && c.m0Subnets > 0 && (c.base + offset) % c.m0Size != 0
    ensures HeldAt(DeviceRoutes(c, offset, asn), 0, c.base + offset - 1)
  {
    FirstSubnet(c, offset, asn, c.m0Subnets);
    UnalignedPrefix(c.m0Size, c.base, offset, c.width);
    assert DeviceRoutes(c, offset, asn)[0] == DirectRouteAt(c, offset, asn, 0);
  }

  /** The second device's first direct block reaches back into the DUT's range. */
  lemma SecondDirectOff(c: Config)
    requires c.Sized() && c.colos * c.m0s > 1 && c.m0Subnets > 0 && c.MxCount() % c.m0Size != 0
    requires DeviceAligned(c, c.DirectCount(), 0)
    ensures !Tiling(AllBlocks(c), c.base, RangeEnd(c))
  {
    SecondDirectAddress(c);
    var a := c.base + c.PerM0() - 1;
    var asn := SecondDeviceFollows(c);
    FirstDirectReachesBack(c, c.PerM0(), asn);
    var i := OwnRangeHeld(c, a);
    assert HeldAt(AllBlocks(c), |OwnBlocks(c)|, a) by {
      assert HeldAt(DeviceRoutes(c, c.PerM0(), asn), 0, a);
    }
    HeldTwice(AllBlocks(c), c.base, RangeEnd(c), a, i, |OwnBlocks(c)|);
  }

  /** Without direct subnets the second device restarts at the base: its first MX block is the first MX VM's. */
  lemma SecondRestarts(c: Config)
    requires c.Sized() && c.colos * c.m0s > 1 && c.m0Subnets == 0 && c.HasMx()
    ensures !Tiling(AllBlocks(c), c.base, RangeEnd(c))
  {
    var asn := SecondDeviceFollows(c);
    FirstDownstream(c, 0, c.mxs);
    FirstMx(c, c.base, asn, c.mxs, 0);
    assert DeviceRoutes(c, c.PerM0(), asn)[0] == MxRouteAt(c, c.base, asn, 0, 0);
    assert OwnBlocks(c)[0] == DownstreamRouteAt(c, 0, 0, 0);
    var p := DownstreamRouteAt(c, 0, 0, 0).prefix;
    ClearBitsKeepsAligned(c.base, p.HostBits());
    HeldTwice(AllBlocks(c), c.base, RangeEnd(c), c.base, 0, |OwnBlocks(c)|);
  }

  /** The second device's first MX block reaches back into its last direct one. */
  lemma SecondMxOff(c: Config)
    requires c.Sized() && c.colos * c.m0s > 1 && c.m0Subnets > 0 && c.HasMx() && c.DirectCount() % c.mxSize != 0
    requires DeviceAligned(c, c.DirectCount(), 0) && c.MxCount() % c.m0Size == 0
    ensures !Tiling(AllBlocks(c), c.base, RangeEnd(c))
  {
    var perM0, direct, n := c.PerM0(), c.DirectCount(), c.m0Subnets;
    var mid := c.base + perM0 + direct;
    SecondMxAddress(c, mid);
    var asn := SecondDeviceFollows(c);
    FirstSubnet(c, perM0, asn, n);
    MultipleMod(n, c.m0Size);
    ModAdd(direct, c.MxCount(), c.m0Size);
    ModAdd(c.base, perM0, c.m0Size);
    AlignedDirectFits(c, perM0, asn);
    StepsIs(n, c.m0Size);
    MxBaseFollows(c, perM0, asn);
    FirstMx(c, mid, asn, c.mxs, 0);
    UnalignedPrefix(c.mxSize, mid, 0, c.width);
    var device := DeviceRoutes(c, perM0, asn);
    assert device[n - 1] == DirectRouteAt(c, perM0, asn, n - 1) && device[n] == MxRouteAt(c, mid, asn, 0, 0);
    assert Denotes(device[n - 1], c.base + perM0 + Steps(n - 1, c.m0Size), c.base + perM0 + Steps(n - 1 + 1, c.m0Size));
    HeldTwice(AllBlocks(c), c.base, RangeEnd(c), mid - 1, |OwnBlocks(c)| + n - 1, |OwnBlocks(c)| + n);
  }

  lemma SecondMxAddress(c: Config, mid: nat)
    requires mid == c.base + c.PerM0() + c.DirectCount()
    requires (c.base + c.DirectCount()) % c.mxSize == 0 && c.DirectCount() % c.mxSize != 0
    ensures mid % c.mxSize != 0
  {
    MultipleMod(c.mxs * c.mxSubnets, c.mxSize);
    ModAdd(c.base + c.DirectCount(), c.MxCount(), c.mxSize);
    if mid % c.mxSize == 0 { SameMultiple(c.base + c.DirectCount() + c.MxCount(), c.DirectCount(), c.mxSize); }
  }

  // ---- exactly when ----

  lemma OffBreaks(c: Config)
    requires c.Sized() && c.colos * c.m0s >= 1 && !c.Adjoining()
    ensures !Tiling(AllBlocks(c), c.base, RangeEnd(c))
  {
    if c.m0Subnets > 0 && c.base % c.m0Size != 0 {
      FirstDirectOff(c);
    } else if c.HasMx() && (c.base + c.DirectCount()) % c.mxSize != 0 {
      FirstMxOff(c);
    } else if c.m0Subnets > 0 && c.MxCount() % c.m0Size != 0 {
      SecondDirectOff(c);
    } else if c.m0Subnets == 0 {
      SecondRestarts(c);
    } else {
      SecondMxOff(c);
    }
  }

  /**
   The DUT's own blocks and the announced ones tile one range per M0 device exactly when base and counts let each
   block stand behind the one before it; otherwise some address is announced twice, or one outside the range.
   */
  lemma AllBlocksTile(c: Config)
    requires c.Sized() && c.colos * c.m0s >= 1
    ensures Tiling(AllBlocks(c), c.base, RangeEnd(c)) <==> c.Adjoining()
  {
    if c.Adjoining() {
      AdjoiningChain(c);
      ChainTiles(AllBlocks(c), c.base, RangeEnd(c));
    } else {
      OffBreaks(c);
    }
  }

  /** Then, and only then, are they adjacent in the order in which they are announced. */
  lemma AllBlocksChain(c: Config)
    requires c.Sized() && c.colos * c.m0s >= 1
    ensures Chain(AllBlocks(c), c.base, RangeEnd(c)) <==> c.Adjoining()
  {
    if c.Adjoining() {
      AdjoiningChain(c);
    } else if Chain(AllBlocks(c), c.base, RangeEnd(c)) {
      ChainTiles(AllBlocks(c), c.base, RangeEnd(c));
      OffBreaks(c);
    }
  }

  // ---- inside the range ----

  /** Every block reaches its own address and ends by hi. */
  ghost predicate Below(rs: seq<M0Route>, hi: int) {
    forall r :: r in rs ==> r.prefix.addr < r.prefix.End() <= hi
  }

  /** Rounding down never moves the end of a block up. */
  lemma PrefixBelow(size: Positive, ipBase: nat, offset: nat, width: nat)
    requires PowerOfTwo(size) && FloorLog2(size) <= width
    ensures var p := GeneratePrefix(size, ipBase, offset, width); p.addr < p.End() <= ipBase + offset + size
  {
    ClearedBelow(Cidr(ipBase + offset, width - FloorLog2(size), width), size);
  }

  lemma ClearedBelow(p: Cidr, size: nat)
    requires Pow2(p.HostBits()) == size
    ensures p.addr < p.End() <= p.addr + size
  {
    ClearBitsKeepsAligned(p.addr, p.HostBits());
  }

  lemma {:induction false} DirectBelow(c: Config, offset: nat, asn: Option<int>, count: nat)
    requires c.Sized()
    ensures Below(SubnetRoutes(c, offset, asn, count), c.base + offset + Steps(count, c.m0Size))
  {
    if count > 0 {
      DirectBelow(c, offset, asn, count - 1);
      PrefixBelow(c.m0Size, c.base, offset + Steps(count - 1, c.m0Size), c.width);
    }
  }

  lemma {:induction false} MxBelow(c: Config, ipBaseMx: nat, asn: Option<int>, mx: nat, subnet: nat)
    requires c.Sized()
    ensures Below(MxRoutes(c, ipBaseMx, asn, mx, subnet), ipBaseMx + MxOffset(c, mx, subnet))
    decreases mx, subnet
  {
    if subnet > 0 {
      MxBelow(c, ipBaseMx, asn, mx, subnet - 1);
      PrefixBelow(c.mxSize, ipBaseMx, MxOffset(c, mx, subnet - 1), c.width);
    } else if mx > 0 {
      MxBelow(c, ipBaseMx, asn, mx - 1, c.mxSubnets);
    }
  }

  lemma {:induction false} VmBelow(c: Config, direct: nat, mxIndex: nat, count: nat)
    requires c.Sized()
    ensures Below(DownstreamRoutes(c, direct, mxIndex, count), c.base + direct + MxOffset(c, mxIndex, count))
  {
    if count > 0 {
      VmBelow(c, direct, mxIndex, count - 1);
      PrefixBelow(c.mxSize, c.base, direct + MxOffset(c, mxIndex, count - 1), c.width);
    }
  }

  lemma {:induction false} DownstreamBelow(c: Config, direct: nat, mxs: nat)
    requires c.Sized()
    ensures Below(AllDownstream(c, direct, mxs), c.base + direct + MxOffset(c, mxs, 0))
  {
    if mxs > 0 {
      DownstreamBelow(c, direct, mxs - 1);
      VmBelow(c, direct, mxs - 1, c.mxSubnets);
      MxOffsetGrows(c, mxs - 1, c.mxSubnets);
    }
  }

  lemma {:induction false} MxOffsetGrows(c: Config, mx: nat, subnet: nat)
    ensures MxOffset(c, mx, 0) <= MxOffset(c, mx, subnet)
  {
    if subnet > 0 {
      MxOffsetGrows(c, mx, subnet - 1);
    }
  }

  lemma MxBaseBelow(c: Config, offset: nat, asn: Option<int>)
    requires c.Sized()
    ensures MxBase(c, LastPrefix(SubnetRoutes(c, offset, asn, c.m0Subnets)))
            <= c.base + offset + Steps(c.m0Subnets, c.m0Size)
  {
    if c.m0Subnets > 0 {
      FirstSubnet(c, offset, asn, c.m0Subnets);
      DirectBelow(c, offset, asn, c.m0Subnets);
    }
  }

  lemma DeviceBelow(c: Config, direct: nat, perM0: nat, offset: nat, asn: Option<int>)
    requires c.Sized() && Counts(c, direct, perM0)
    ensures Below(DeviceRoutes(c, offset, asn), c.base + offset + perM0)
  {
    DirectBelow(c, offset, asn, c.m0Subnets);
    MxBaseBelow(c, offset, asn);
    MxBelow(c, MxBase(c, LastPrefix(SubnetRoutes(c, offset, asn, c.m0Subnets))), asn, c.mxs, 0);
  }

  ghost predicate UpstreamEnds(c: Config, perM0: nat, colo: nat, m0: nat) {
    Below(UpstreamUpTo(c, perM0, colo, m0), c.base + Steps(DeviceIndex(c, colo, m0), perM0))
  }

  lemma DeviceAtBelow(c: Config, direct: nat, perM0: nat, colo: nat, m0: nat)
    requires c.Sized() && Counts(c, direct, perM0)
    ensures Below(DeviceRoutesAt(c, perM0, colo, m0), c.base + Steps(DeviceIndex(c, colo, m0) + 1, perM0))
  {
    DeviceBelow(c, direct, perM0, Steps(DeviceIndex(c, colo, m0), perM0), Some(c.m0AsnStart + m0));
  }

  lemma NextDeviceEnds(c: Config, direct: nat, perM0: nat, colo: nat, m0: nat)
    requires c.Sized() && Counts(c, direct, perM0) && UpstreamEnds(c, perM0, colo, m0)
    ensures UpstreamEnds(c, perM0, colo, m0 + 1)
  {
    var xs, ys, k := UpstreamUpTo(c, perM0, colo, m0), DeviceRoutesAt(c, perM0, colo, m0), DeviceIndex(c, colo, m0);
    assert Below(ys, c.base + Steps(k + 1, perM0)) by { DeviceAtBelow(c, direct, perM0, colo, m0); }
    BelowConcat(xs, ys, c.base + Steps(k, perM0), c.base + Steps(k + 1, perM0));
    NextUpstream(c, perM0, colo, m0);
  }

  lemma BelowConcat(xs: seq<M0Route>, ys: seq<M0Route>, lo: int, hi: int)
    requires Below(xs, lo) && Below(ys, hi) && lo <= hi
    ensures Below(xs + ys, hi)
  {
  }

  lemma NextColoEnds(c: Config, perM0: nat, colo: nat)
    requires UpstreamEnds(c, perM0, colo, c.m0s)
    ensures UpstreamEnds(c, perM0, colo + 1, 0)
  {
    assert DeviceIndex(c, colo + 1, 0) == DeviceIndex(c, colo, c.m0s);
    assert UpstreamUpTo(c, perM0, colo + 1, 0) == UpstreamUpTo(c, perM0, colo, c.m0s);
  }

  lemma {:induction false} UpstreamBelow(c: Config, direct: nat, perM0: nat, colo: nat, m0: nat)
    requires c.Sized() && Counts(c, direct, perM0)
    ensures UpstreamEnds(c, perM0, colo, m0)
    decreases colo, m0
  {
    if m0 > 0 {
      UpstreamBelow(c, direct, perM0, colo, m0 - 1);
      NextDeviceEnds(c, direct, perM0, colo, m0 - 1);
    } else if colo > 0 {
      UpstreamBelow(c, direct, perM0, colo - 1, c.m0s);
      NextColoEnds(c, perM0, colo - 1);
    }
  }

  lemma OwnBelow(c: Config)
    requires c.Sized()
    ensures Below(OwnBlocks(c), c.base + c.PerM0())
  {
    CountsAre(c);
    DirectBelow(c, 0, None, c.m0Subnets);
    DownstreamBelow(c, c.DirectCount(), c.mxs);
  }

  /**
   No announced block passes the end of the range, aligned or not, so none leaves the address space if the range
   fits it.
   */
  lemma AllBlocksInRange(c: Config, i: nat)
    requires c.Sized() && c.colos * c.m0s >= 1 && i < |AllBlocks(c)|
    ensures AllBlocks(c)[i].prefix.addr < AllBlocks(c)[i].prefix.End() <= RangeEnd(c)
  {
    CountsAre(c);
    OwnBelow(c);
    UpstreamBelow(c, c.DirectCount(), c.PerM0(), c.colos, 0);
    DeviceIndexIs(c, c.colos, 0);
    StepsIs(c.colos * c.m0s, c.PerM0());
    MulMonotone(1, c.colos * c.m0s, c.PerM0());
    assert AllBlocks(c)[i] in OwnBlocks(c) || AllBlocks(c)[i] in UpstreamUpTo(c, c.PerM0(), c.colos, 0);
  }

  /** Without direct subnets the blocks of an aligned base tile exactly unless a second M0 has MX subnets. */
  lemma NoDirectSubnetsCollide(c: Config)
    requires c.Sized() && c.colos * c.m0s >= 1 && c.m0Subnets == 0 && c.base % c.mxSize == 0
    ensures Tiling(AllBlocks(c), c.base, RangeEnd(c)) <==> !(c.colos * c.m0s > 1 && c.HasMx())
  {
    AllBlocksTile(c);
  }

  /** Two direct and two MX addresses per device that do not fit each other: one device tiles, two do not. */
  lemma UnalignedCollides(colos: nat, m0s: nat)
    requires colos * m0s >= 1
    ensures var c := Config(colos, m0s, 1, 4, 0, 1, 1, 2, 0, 0, 32, "");
            Tiling(AllBlocks(c), c.base, RangeEnd(c)) <==> colos * m0s == 1
  {
    var c := Config(colos, m0s, 1, 4, 0, 1, 1, 2, 0, 0, 32, "");
    assert FloorLog2(4) == 2 && FloorLog2(2) == 1 && Pow2(2) == 4 && Pow2(1) == 2;
    AllBlocksTile(c);
  }
}
