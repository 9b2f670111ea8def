/** `generate_routes` of ansible/library/announce_routes.py: the filtered podset/tor/subnet enumeration. */
module Routes {
  import opened Common

  datatype RouterType = Leaf | Spine | MgmtLeaf | Core | Tor
  datatype TopoKind = T2 | T0Mclag | M0 | Plain
  datatype Family = V4 | V6 | Both

  datatype Query = Query(
    family: Family, podsets: nat, tors: nat, subnets: nat, maxSubnets: nat, size: Positive,
    spineAsn: int, leafAsnStart: int, torAsnStart: int, coreRaAsn: int,
    nexthop4: string, nexthop6: string,
    topo: TopoKind, router: RouterType, torIndex: Option<nat>, setNum: Option<nat>,
    noDefaultRoute: bool, torDefaultRoute: bool, offset: nat)

  datatype Octets = Octets(o1: nat, o2: nat, o3: nat, o4: nat)

  datatype Route =
    | Default(v6: bool, nexthop: string, aspath: Option<seq<int>>)
    | Net4(addr: Octets, len: int, nexthop: string, aspath: Option<seq<int>>)
    | Net6(addr: Octets, nexthop: string, aspath: Option<seq<int>>)

  // ---- arithmetic ----

  /** `int(math.log(n, 2))`, exactly. */
  function FloorLog2(n: Positive): nat {
    if n == 1 then 0 else 1 + FloorLog2(n / 2)
  }

  /** `int(math.ceil(n / 3.0))`. */
  function CeilThird(n: int): int {
    (n + 2) / 3
  }

  function Suffix(q: Query, podset: nat, tor: nat, subnet: nat): nat {
    podset * q.tors * q.maxSubnets * q.size + tor * q.maxSubnets * q.size + subnet * q.size + q.offset
  }

  function ToOctets(suffix: nat): Octets {
    var octet2 := 168 + suffix / 65536;
    Octets(192 + octet2 / 256, octet2 % 256, suffix / 256 % 256, suffix % 256)
  }

  // ---- the filters ----

  /** Whether a VM of the given set announces a core podset. */
  predicate CoreSetAnnounces(podsets: nat, podset: nat, setNum: nat) {
    if podset <= CeilThird(podsets - 3) then setNum == 0
    else if podset < CeilThird((podsets - 3) * 2) then setNum == 1
    else true
  }

  /** The first two leaf podsets belong to one set each. */
  predicate LeafSetAnnounces(podset: nat, setNum: nat) {
    (podset == 0 ==> setNum == 0) && (podset == 1 ==> setNum == 1)
  }

  predicate Included(q: Query, podset: nat, tor: nat, subnet: nat) {
    match q.router
    case Core => podset >= 3 && (q.setNum.Some? ==> CoreSetAnnounces(q.podsets, podset, q.setNum.value))
    case Spine => podset != 0
    case MgmtLeaf => podset != 0
    case Leaf =>
      (match q.topo
       case T2 => podset <= 2 && (q.setNum.Some? ==> LeafSetAnnounces(podset, q.setNum.value))
       case T0Mclag => podset <= 1 && (q.setNum.Some? ==> LeafSetAnnounces(podset, q.setNum.value))
       case M0 => !(podset == 0 && tor == 0)
       case Plain => !(podset == 0 && tor == 0))
    case Tor => podset == 0 && !(q.topo.M0? && subnet == 0) && q.torIndex == Some(tor)
  }

  // ---- the routes ----

  function AsPath(q: Query, podset: nat, tor: nat): Option<seq<int>> {
    var leafAsn, torAsn := q.leafAsnStart + podset, q.torAsnStart + tor;
    match q.router
    case Core => Some([leafAsn, q.coreRaAsn])
    case Spine => Some([leafAsn, torAsn])
    case MgmtLeaf => Some([leafAsn, torAsn])
    case Leaf =>
      if q.topo.T2? || q.topo.T0Mclag? || podset == 0 then Some([torAsn]) else Some([q.spineAsn, leafAsn, torAsn])
    case Tor => None
  }

  function RoutesAt(q: Query, podset: nat, tor: nat, subnet: nat): seq<Route> {
    var addr := ToOctets(Suffix(q, podset, tor, subnet));
    var path := AsPath(q, podset, tor);
    (if q.family.V6? then [] else [Net4(addr, 32 - FloorLog2(q.size), q.nexthop4, path)])
    + (if q.family.V4? then [] else [Net6(addr, q.nexthop6, path)])
  }

  function UplinkAsPath(q: Query): Option<seq<int>> {
    match q.router
    case Leaf => Some([q.spineAsn, 6666, 6667])
    case Spine => Some([6666, 6667])
    case Core => Some([6666, 6667])
    case MgmtLeaf => None
    case Tor => None
  }

  function Defaults(q: Query): seq<Route> {
    if q.noDefaultRoute || (q.router.Tor? && !q.torDefaultRoute) || (q.topo.T2? && !q.router.Core?) then []
    else (if q.family.V6? then [] else [Default(false, q.nexthop4, UplinkAsPath(q))])
         + (if q.family.V4? then [] else [Default(true, q.nexthop6, UplinkAsPath(q))])
  }

  /** What the three loops have appended on reaching position (podset, tor, subnet). */
  function Emitted(q: Query, podset: nat, tor: nat, subnet: nat): seq<Route>
    decreases podset, tor, subnet
  {
    if subnet > 0 then
      Emitted(q, podset, tor, subnet - 1)
      + if Included(q, podset, tor, subnet - 1) then RoutesAt(q, podset, tor, subnet - 1) else []
    else if tor > 0 then Emitted(q, podset, tor - 1, q.subnets)
    else if podset > 0 then Emitted(q, podset - 1, q.tors, 0)
    else []
  }

  /** The variable `suffix` at that position. */
  function LastSuffix(q: Query, podset: nat, tor: nat, subnet: nat): nat
    decreases podset, tor, subnet
  {
    if subnet > 0 then
      if Included(q, podset, tor, subnet - 1) then Suffix(q, podset, tor, subnet - 1)
      else LastSuffix(q, podset, tor, subnet - 1)
    else if tor > 0 then LastSuffix(q, podset, tor - 1, q.subnets)
    else if podset > 0 then LastSuffix(q, podset - 1, q.tors, 0)
    else 0
  }

  function Nets(q: Query): seq<Route> {
    Emitted(q, q.podsets, 0, 0)
  }

  function Final(q: Query): nat {
    LastSuffix(q, q.podsets, 0, 0)
  }

  /** One position further. */
  lemma EmittedNext(q: Query, podset: nat, tor: nat, subnet: nat)
    ensures var more := if Included(q, podset, tor, subnet) then RoutesAt(q, podset, tor, subnet) else [];
            Defaults(q) + Emitted(q, podset, tor, subnet + 1) == (Defaults(q) + Emitted(q, podset, tor, subnet)) + more
    ensures LastSuffix(q, podset, tor, subnet + 1)
            == if Included(q, podset, tor, subnet) then Suffix(q, podset, tor, subnet)
               else LastSuffix(q, podset, tor, subnet)
  {
  }

  /** The function itself: three nested loops that append to a list. */
  method GenerateRoutes(q: Query) returns (routes: seq<Route>, suffix: nat)
    ensures routes == Defaults(q) + Nets(q)
    ensures suffix == Final(q)
  {
    routes := Defaults(q);
    suffix := 0;
    for podset := 0 to q.podsets
      invariant routes == Defaults(q) + Emitted(q, podset, 0, 0) && suffix == LastSuffix(q, podset, 0, 0)
    {
      for tor := 0 to q.tors
        invariant routes == Defaults(q) + Emitted(q, podset, tor, 0) && suffix == LastSuffix(q, podset, tor, 0)
      {
        for subnet := 0 to q.subnets
          invariant routes == Defaults(q) + Emitted(q, podset, tor, subnet)
                    && suffix == LastSuffix(q, podset, tor, subnet)
        {
          EmittedNext(q, podset, tor, subnet);
          if Included(q, podset, tor, subnet) {
            suffix := Suffix(q, podset, tor, subnet);
            routes := routes + RoutesAt(q, podset, tor, subnet);
          }
        }
      }
    }
  }

  // ---- what one route denotes ----

  const PRIVATE_BASE: nat := 0xC0A8_0000   // 192.168.0.0

  function Value(a: Octets): nat {
    a.o1 * 0x100_0000 + a.o2 * 0x1_0000 + a.o3 * 0x100 + a.o4
  }

  /** The upper half of the address that the default IPv6 pattern spells: 20AA:BBCC:0:DD. */
  function Value6(a: Octets): nat {
    (0x2000 + a.o1) * 0x1_0000_0000_0000 + (a.o2 * 0x100 + a.o3) * 0x1_0000_0000 + a.o4
  }

  ghost predicate IsDottedQuad(a: Octets) {
    a.o1 < 256 && a.o2 < 256 && a.o3 < 256 && a.o4 < 256
  }

  /**
   The octets spell 192.168.0.0 + suffix, whatever the suffix; they form a legal address exactly while the
   sum stays below 2^32.
   */
  lemma OctetsSpellSuffix(suffix: nat)
    ensures Value(ToOctets(suffix)) == PRIVATE_BASE + suffix
    ensures IsDottedQuad(ToOctets(suffix)) <==> PRIVATE_BASE + suffix < 0x1_0000_0000
  {
    var a := ToOctets(suffix);
    var high, mid := suffix / 0x1_0000, suffix / 0x100;
    DivTwice(suffix);
    assert suffix == mid * 0x100 + a.o4 && a.o4 < 0x100;
    assert mid == high * 0x100 + a.o3 && a.o3 < 0x100;
    assert 168 + high == (a.o1 - 192) * 0x100 + a.o2 && a.o2 < 0x100;
    assert a.o1 < 256 <==> 168 + high < 64 * 0x100;
  }

  lemma DivTwice(n: nat)
    ensures n / 0x100 / 0x100 == n / 0x1_0000
  {
  }

  /** The IPv6 pattern loses nothing: equal /64 networks come from equal suffixes. */
  lemma PatternInjective(x: nat, y: nat)
    requires IsDottedQuad(ToOctets(x)) && IsDottedQuad(ToOctets(y))
    ensures Value6(ToOctets(x)) == Value6(ToOctets(y)) <==> x == y
  {
    OctetsSpellSuffix(x);
    OctetsSpellSuffix(y);
    var a, b := ToOctets(x), ToOctets(y);
    if Value6(a) == Value6(b) {
      assert a.o1 == b.o1 && a.o2 * 0x100 + a.o3 == b.o2 * 0x100 + b.o3 && a.o4 == b.o4;
    }
  }

  lemma {:induction false} FloorLog2OfPow2(k: nat)
    ensures FloorLog2(Pow2(k)) == k
  {
    if k == 0 {
    } else {
      FloorLog2OfPow2(k - 1);
    }
  }

  // ---- the enumeration ----

  ghost predicate Earlier(p: nat, t: nat, s: nat, podset: nat, tor: nat, subnet: nat) {
    p < podset || (p == podset && (t < tor || (t == tor && s < subnet)))
  }

  /** What was emitted up to one position starts what is emitted up to a later one. */
  lemma {:induction false} EmittedPrefix(q: Query, p: nat, t: nat, s: nat, podset: nat, tor: nat, subnet: nat)
    requires t < q.tors && s <= q.subnets
    requires Earlier(p, t, s, podset, tor, subnet) || (p == podset && t == tor && s == subnet)
    ensures Emitted(q, p, t, s) <= Emitted(q, podset, tor, subnet)
    decreases podset, tor, subnet
  {
    if p == podset && t == tor && s == subnet {
    } else if subnet > 0 {
      EmittedPrefix(q, p, t, s, podset, tor, subnet - 1);
    } else if tor > 0 {
      EmittedPrefix(q, p, t, s, podset, tor - 1, q.subnets);
    } else {
      EmittedPrefix(q, p, t, s, podset - 1, q.tors, 0);
    }
  }

  /** Every included position contributes its routes. */
  lemma PositionEmitted(q: Query, podset: nat, tor: nat, subnet: nat, p: nat, t: nat, s: nat, r: Route)
    requires t < q.tors && s < q.subnets && Earlier(p, t, s, podset, tor, subnet)
    requires Included(q, p, t, s) && r in RoutesAt(q, p, t, s)
    ensures r in Emitted(q, podset, tor, subnet)
  {
    assert Emitted(q, p, t, s + 1) == Emitted(q, p, t, s) + RoutesAt(q, p, t, s);
    EmittedPrefix(q, p, t, s + 1, podset, tor, subnet);
  }

  /** And every route comes from one. */
  lemma {:induction false} EmittedPosition(q: Query, podset: nat, tor: nat, subnet: nat, r: Route)
    returns (p: nat, t: nat, s: nat)
    requires tor <= q.tors && subnet <= q.subnets && (subnet > 0 ==> tor < q.tors)
    requires r in Emitted(q, podset, tor, subnet)
    ensures t < q.tors && s < q.subnets && Earlier(p, t, s, podset, tor, subnet)
    ensures Included(q, p, t, s) && r in RoutesAt(q, p, t, s)
    decreases podset, tor, subnet
  {
    if subnet > 0 {
      if r in Emitted(q, podset, tor, subnet - 1) {
        p, t, s := EmittedPosition(q, podset, tor, subnet - 1, r);
      } else {
        p, t, s := podset, tor, subnet - 1;
      }
    } else if tor > 0 {
      p, t, s := EmittedPosition(q, podset, tor - 1, q.subnets, r);
    } else {
      p, t, s := EmittedPosition(q, podset - 1, q.tors, 0, r);
    }
  }

  /** The list holds exactly the routes of the included positions. */
  lemma NetsExactly(q: Query, r: Route)
    ensures r in Nets(q) <==>
            exists p: nat, t: nat, s: nat ::
              p < q.podsets && t < q.tors && s < q.subnets && Included(q, p, t, s) && r in RoutesAt(q, p, t, s)
  {
    if r in Nets(q) {
      var p, t, s := EmittedPosition(q, q.podsets, 0, 0, r);
    }
    if p: nat, t: nat, s: nat :|
         p < q.podsets && t < q.tors && s < q.subnets && Included(q, p, t, s) && r in RoutesAt(q, p, t, s) {
      PositionEmitted(q, q.podsets, 0, 0, p, t, s, r);
    }
  }

  /** The suffix as one step per tor and one per podset. */
  lemma SuffixSteps(q: Query, podset: nat, tor: nat, subnet: nat)
    ensures var perTor := q.maxSubnets * q.size;
            Suffix(q, podset, tor, subnet) == podset * (q.tors * perTor) + tor * perTor + subnet * q.size + q.offset
  {
    var perTor := q.maxSubnets * q.size;
    calc {
      podset * q.tors * q.maxSubnets * q.size;
      podset * q.tors * perTor;
      podset * (q.tors * perTor);
    }
    assert tor * q.maxSubnets * q.size == tor * perTor;
  }

  // ---- blocks ----

  predicate IsNet(r: Route) {
    r.Net4? || r.Net6?
  }

  lemma RoutesAtShape(q: Query, podset: nat, tor: nat, subnet: nat)
    ensures var more := RoutesAt(q, podset, tor, subnet);
            && |more| <= 2 && (|more| == 2 ==> more[0].Net4? != more[1].Net4?)
            && forall r :: r in more ==> IsNet(r) && Value(r.addr) == PRIVATE_BASE + Suffix(q, podset, tor, subnet)
  {
    OctetsSpellSuffix(Suffix(q, podset, tor, subnet));
  }

  lemma SuffixPastOffset(q: Query, podset: nat, tor: nat, subnet: nat)
    ensures q.offset <= Suffix(q, podset, tor, subnet)
  {
  }

  // ---- alignment ----

  /** Every position is a whole number of subnets past the offset. */
  lemma SuffixIsMultiple(q: Query, podset: nat, tor: nat, subnet: nat)
    ensures (Suffix(q, podset, tor, subnet) - q.offset) % q.size == 0
  {
    var n := podset * q.tors * q.maxSubnets + tor * q.maxSubnets + subnet;
    calc {
      Suffix(q, podset, tor, subnet) - q.offset;
      podset * q.tors * q.maxSubnets * q.size + tor * q.maxSubnets * q.size + subnet * q.size;
      n * q.size;
    }
    MultipleMod(n, q.size);
  }

  lemma SameRemainder(x: int, y: int, m: int)
    requires m > 0 && (x - y) % m == 0
    ensures x % m == 0 <==> y % m == 0
  {
    if y % m == 0 { ModAdd(x - y, y, m); }
    if x % m == 0 {
      assert y - x == -((x - y) / m) * m;
      MultipleMod(-((x - y) / m), m);
      ModAdd(y - x, x, m);
    }
  }

  /**
   An announced prefix is aligned to its size exactly when the first address of the enumeration is: the
   offset alone decides.
   */
  lemma PrefixesAligned(q: Query, podset: nat, tor: nat, subnet: nat)
    ensures Value(ToOctets(Suffix(q, podset, tor, subnet))) % q.size == 0 <==> (PRIVATE_BASE + q.offset) % q.size == 0
  {
    var x := Suffix(q, podset, tor, subnet);
    OctetsSpellSuffix(x);
    SuffixIsMultiple(q, podset, tor, subnet);
    SameRemainder(PRIVATE_BASE + x, PRIVATE_BASE + q.offset, q.size);
  }

  /** For power-of-two sizes up to 2^19 that is alignment of the offset; from 2^20 on 192.168.0.0 is in the way. */
  lemma BaseAlignment(k: nat)
    ensures PRIVATE_BASE % Pow2(k) == 0 <==> k <= 19
  {
    assert Pow2(19) == 0x8_0000 && Pow2(20) == 0x10_0000 by { Pow2Nineteen(); }
    if k <= 19 {
      Pow2Divides(k, 19);
      DividesThrough(PRIVATE_BASE, Pow2(19), Pow2(k));
    } else {
      Pow2Divides(20, k);
      if PRIVATE_BASE % Pow2(k) == 0 {
        DividesThrough(PRIVATE_BASE, Pow2(k), Pow2(20));
      }
    }
  }

  lemma Pow2Nineteen()
    ensures Pow2(19) == 0x8_0000 && Pow2(20) == 0x10_0000
  {
    assert Pow2(5) == 32;
    Pow2Adds(5, 5);
    Pow2Adds(5, 10);
    Pow2Adds(4, 15);
    Pow2Adds(1, 19);
  }
}
