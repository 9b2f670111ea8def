/** What each announced route says: its position read back from address, prefix length, next hop and AS path. */
module RoutePaths {
  import opened Common
  import opened Routes
  import opened RouteSpacing
  import FibT0

  // ---- AS paths ----

  /** The AS path of a network names its podset and tor, as far as the router type shows them. */
  ghost predicate PathTells(q: Query, path: Option<seq<int>>, podset: nat, tor: nat) {
    match q.router
    case Tor => path.None?
    case Core =>
      path.Some? && |path.value| == 2 && path.value[0] - q.leafAsnStart == podset && path.value[1] == q.coreRaAsn
    case Spine => PathOfTwo(q, path, podset, tor)
    case MgmtLeaf => PathOfTwo(q, path, podset, tor)
    case Leaf =>
      if podset > 0 && (q.topo.Plain? || q.topo.M0?) then
        && path.Some? && |path.value| == 3 && path.value[0] == q.spineAsn
        && path.value[1] - q.leafAsnStart == podset && path.value[2] - q.torAsnStart == tor
      else
        path.Some? && |path.value| == 1 && path.value[0] - q.torAsnStart == tor
  }

  ghost predicate PathOfTwo(q: Query, path: Option<seq<int>>, podset: nat, tor: nat) {
    path.Some? && |path.value| == 2 && path.value[0] - q.leafAsnStart == podset && path.value[1] - q.torAsnStart == tor
  }

  lemma AsPathTells(q: Query, path: Option<seq<int>>, podset: nat, tor: nat)
    ensures path == AsPath(q, podset, tor) <==> PathTells(q, path, podset, tor)
  {
    if path.Some? && PathTells(q, path, podset, tor) {
      var xs := path.value;
      assert xs == if |xs| == 1 then [xs[0]] else if |xs| == 2 then [xs[0], xs[1]] else [xs[0], xs[1], xs[2]];
    }
  }

  /** The path of a default route: the two uplink ASNs, behind the spine for leaves. */
  ghost predicate UplinkTells(q: Query, path: Option<seq<int>>) {
    if q.router.Tor? || q.router.MgmtLeaf? then path.None?
    else
      && path.Some? && |path.value| == (if q.router.Leaf? then 3 else 2)
      && path.value[|path.value| - 2] == 6666 && path.value[|path.value| - 1] == 6667
      && (q.router.Leaf? ==> path.value[0] == q.spineAsn)
  }

  lemma UplinkPathTells(q: Query, path: Option<seq<int>>)
    ensures path == UplinkAsPath(q) <==> UplinkTells(q, path)
  {
    if path.Some? && UplinkTells(q, path) {
      var xs := path.value;
      assert xs == if |xs| == 2 then [xs[0], xs[1]] else [xs[0], xs[1], xs[2]];
    }
  }

  // ---- addresses and lengths ----

  /** All but the first octet are octets. */
  predicate TailInRange(a: Octets) {
    a.o2 < 256 && a.o3 < 256 && a.o4 < 256
  }

  lemma LastDigit(x: nat, i: nat, y: nat, j: nat)
    requires i < 256 && j < 256 && x * 256 + i == y * 256 + j
    ensures x == y && i == j
  {
  }

  lemma OctetsDetermined(a: Octets, b: Octets)
    requires TailInRange(a) && TailInRange(b) && Value(a) == Value(b)
    ensures a == b
  {
    LastDigit((a.o1 * 256 + a.o2) * 256 + a.o3, a.o4, (b.o1 * 256 + b.o2) * 256 + b.o3, b.o4);
    LastDigit(a.o1 * 256 + a.o2, a.o3, b.o1 * 256 + b.o2, b.o3);
    LastDigit(a.o1, a.o2, b.o1, b.o2);
  }

  lemma OctetsAre(a: Octets, suffix: nat)
    ensures a == ToOctets(suffix) <==> TailInRange(a) && Value(a) == PRIVATE_BASE + suffix
  {
    OctetsSpellSuffix(suffix);
    if TailInRange(a) && Value(a) == PRIVATE_BASE + suffix {
      OctetsDetermined(a, ToOctets(suffix));
    }
  }

  /** The host bits are the largest power of two that is not more than the size. */
  ghost predicate HostBits(size: Positive, bits: int) {
    0 <= bits && Pow2(bits) <= size < 2 * Pow2(bits)
  }

  lemma {:induction false} FloorLog2Is(n: Positive, bits: int)
    ensures HostBits(n, bits) <==> bits == FloorLog2(n)
  {
    if n == 1 {
      if bits >= 1 { assert Pow2(bits) >= 2; }
    } else {
      FloorLog2Is(n / 2, bits - 1);
      if bits >= 1 {
        assert Pow2(bits) == 2 * Pow2(bits - 1);
      }
    }
  }

  // ---- which positions are announced ----

  /** The positions a router announces, by type; sets count podsets in thirds from 0. */
  ghost predicate Told(q: Query, podset: nat, tor: nat, subnet: nat) {
    var n := q.podsets;
    match q.router
    case Tor => podset == 0 && q.torIndex == Some(tor) && (q.topo.M0? ==> subnet >= 1)
    case Spine => podset >= 1
    case MgmtLeaf => podset >= 1
    case Core =>
      && podset >= 3
      && (q.setNum == Some(0) ==> 3 * podset < n || 3 * podset >= 2 * n - 6)
      && (q.setNum == Some(1) ==> 3 * podset >= n)
      && (q.setNum.Some? && q.setNum.value >= 2 ==> 3 * podset >= 2 * n - 6 && 3 * podset >= n)
    case Leaf =>
      match q.topo
      case Plain => podset >= 1 || tor >= 1
      case M0 => podset >= 1 || tor >= 1
      case T2 => podset == 2 || OwnPodset(q, podset)
      case T0Mclag => OwnPodset(q, podset)
  }

  /** Podset 0 belongs to set 0 and podset 1 to set 1; a VM without a set announces both. */
  ghost predicate OwnPodset(q: Query, podset: nat) {
    podset <= 1 && (q.setNum.None? || q.setNum.value == podset)
  }

  lemma IncludedTold(q: Query, podset: nat, tor: nat, subnet: nat)
    requires podset < q.podsets
    ensures Included(q, podset, tor, subnet) <==> Told(q, podset, tor, subnet)
  {
  }

  // ---- whole routes ----

  /** The route of position (podset, tor, subnet), by what it says. */
  ghost predicate Spells(q: Query, r: Route, podset: nat, tor: nat, subnet: nat) {
    && IsNet(r) && (q.family.V4? ==> r.Net4?) && (q.family.V6? ==> r.Net6?)
    && TailInRange(r.addr)
    && Value(r.addr) == PRIVATE_BASE + ((podset * q.tors + tor) * q.maxSubnets + subnet) * q.size + q.offset
    && (r.Net4? ==> HostBits(q.size, 32 - r.len) && r.nexthop == q.nexthop4)
    && (r.Net6? ==> r.nexthop == q.nexthop6)
    && PathTells(q, r.aspath, podset, tor)
  }

  lemma RouteSpells(q: Query, r: Route, p: nat, t: nat, s: nat)
    ensures r in RoutesAt(q, p, t, s) <==> Spells(q, r, p, t, s)
  {
    SuffixOfSlot(q, p, t, s);
    if IsNet(r) {
      OctetsAre(r.addr, Suffix(q, p, t, s));
      AsPathTells(q, r.aspath, p, t);
      if r.Net4? { FloorLog2Is(q.size, 32 - r.len); }
    }
  }

  /** Exactly the routes that spell a position of the router's are announced as networks. */
  lemma NetsSpell(q: Query, r: Route)
    ensures r in Nets(q) <==>
            exists p: nat, t: nat, s: nat ::
              p < q.podsets && t < q.tors && s < q.subnets && Told(q, p, t, s) && Spells(q, r, p, t, s)
  {
    forall p: nat, t: nat, s: nat | p < q.podsets ensures Included(q, p, t, s) <==> Told(q, p, t, s) {
      IncludedTold(q, p, t, s);
    }
    NetsExactly(q, r);
    if p: nat, t: nat, s: nat :|
         p < q.podsets && t < q.tors && s < q.subnets && Included(q, p, t, s) && r in RoutesAt(q, p, t, s) {
      RouteSpells(q, r, p, t, s);
    }
    if p: nat, t: nat, s: nat :|
         p < q.podsets && t < q.tors && s < q.subnets && Told(q, p, t, s) && Spells(q, r, p, t, s) {
      RouteSpells(q, r, p, t, s);
    }
  }

  /** A call announces a default route of each of its families, unless it or its router type has none. */
  ghost predicate HasDefaults(q: Query) {
    && !q.noDefaultRoute
    && (q.router.Tor? ==> q.torDefaultRoute)
    && (q.topo.T2? ==> q.router.Core?)
  }

  lemma DefaultsSpell(q: Query, r: Route)
    ensures r in Defaults(q) <==>
            && HasDefaults(q) && r.Default? && !(if r.v6 then q.family.V4? else q.family.V6?)
            && r.nexthop == (if r.v6 then q.nexthop6 else q.nexthop4) && UplinkTells(q, r.aspath)
  {
    if r.Default? { UplinkPathTells(q, r.aspath); }
  }

  // ---- neighbour groups ----

  /** The route that a leaf VM of a topology announces for a position, in terms of the topology file. */
  ghost predicate LeafSpells(t: FibT0.Topology, family: Family, start: nat, r: Route, podset: nat, tor: nat,
      subnet: nat)
  {
    && IsNet(r) && (family.V4? ==> r.Net4?) && (family.V6? ==> r.Net6?)
    && TailInRange(r.addr)
    && Value(r.addr) == PRIVATE_BASE + ((podset * t.tors + tor) * t.maxSubnets + subnet) * t.size + start
    && (r.Net4? ==> HostBits(t.size, 32 - r.len))
    && r.nexthop == (if family.V4? then t.nexthop4 else t.nexthop6)
    && r.aspath == Some(if podset == 0 then [t.torAsnStart + tor]
                        else [t.spineAsn, t.leafAsnStart + podset, t.torAsnStart + tor])
  }

  lemma LeafPath(q: Query, path: Option<seq<int>>, podset: nat, tor: nat)
    requires q.router.Leaf? && q.topo.Plain?
    ensures PathTells(q, path, podset, tor) <==>
            path == Some(if podset == 0 then [q.torAsnStart + tor]
                         else [q.spineAsn, q.leafAsnStart + podset, q.torAsnStart + tor])
  {
    AsPathTells(q, path, podset, tor);
  }

  /** The networks of a leaf VM whose group starts at the given offset: every position but tor 0 of podset 0. */
  lemma LeafNetsSpell(t: FibT0.Topology, family: Family, start: nat, r: Route)
    ensures r in Nets(t.QueryFor(family, true, start)) <==>
            exists p: nat, tor: nat, s: nat ::
              p < t.podsets && tor < t.tors && s < t.subnets && (p > 0 || tor > 0)
              && LeafSpells(t, family, start, r, p, tor, s)
  {
    var q := t.QueryFor(family, true, start);
    NetsSpell(q, r);
    forall p: nat, tor: nat, s: nat ensures Spells(q, r, p, tor, s) <==> LeafSpells(t, family, start, r, p, tor, s) {
      LeafPath(q, if IsNet(r) then r.aspath else None, p, tor);
    }
    forall p: nat, tor: nat, s: nat ensures Told(q, p, tor, s) <==> p > 0 || tor > 0 {
    }
  }

  /** The default routes of a leaf VM. */
  lemma LeafDefaultsSpell(t: FibT0.Topology, family: Family, start: nat, r: Route)
    ensures r in Defaults(t.QueryFor(family, true, start)) <==>
            && !t.noDefaultRoute && r.Default? && !(if r.v6 then family.V4? else family.V6?)
            && r.nexthop == (if family.V4? then t.nexthop4 else t.nexthop6)
            && r.aspath == Some([t.spineAsn, 6666, 6667])
  {
    DefaultsSpell(t.QueryFor(family, true, start), r);
    UplinkPathTells(t.QueryFor(family, true, start), if r.Default? then r.aspath else None);
  }

  /** A tor VM announces nothing. */
  lemma TorVmSilent(t: FibT0.Topology, offset: nat)
    ensures FibT0.Announced(t, false, offset)
            == FibT0.VmRoutes(if t.generate4 then Some([]) else None, if t.generate6 then Some([]) else None)
  {
    var q4, q6 := t.QueryFor(V4, false, offset), t.QueryFor(V6, false, offset);
    FibT0.TorSilent(q4, q4.podsets, 0, 0);
    FibT0.TorSilent(q6, q6.podsets, 0, 0);
    assert Defaults(q4) + Nets(q4) == [] && Defaults(q6) + Nets(q6) == [];
  }
}
