/**
 `generate_t2_routes` of ansible/library/announce_routes.py: the VMs of a linecard are split into two sets,
 and each set announces part of the podsets.
 */
module T2Routes {
  import opened Common
  import opened Routes
  import opened RouteSpacing
  import FibT0
  import RoutePaths

  /** A linecard: the roles of its VMs in name order. `LayoutOf` holds the common configuration. */
  datatype Role = LeafVm | CoreVm | OtherVm

  datatype Linecard = Linecard(layout: Query, vms: seq<Role>)
  {
    /** The set a VM belongs to; a single VM announces everything. */
    function SetNum(index: nat): Option<nat> {
      if |vms| == 1 then None
      else if index < CeilThird(|vms|) then Some(0)
      else Some(1)
    }

    function QueryOf(index: nat, family: Family): Query
      requires index < |vms|
    {
      layout.(family := family, topo := T2, router := if vms[index].LeafVm? then Leaf else Core,
              setNum := SetNum(index), torIndex := None, offset := 0, noDefaultRoute := false)
    }

    /** The VM announces the prefixes of this podset. */
    predicate Announces(index: nat, podset: nat)
      requires index < |vms|
    {
      !vms[index].OtherVm? && podset < layout.podsets && Included(QueryOf(index, V4), podset, 0, 0)
    }
  }

  /** A linecard with several VMs puts the first third of them, rounded up, into set 0 and the rest into set 1. */
  lemma SetsSplitAtThird(card: Linecard, index: nat)
    requires |card.vms| > 1
    ensures card.SetNum(index) == if 3 * index < |card.vms| then Some(0) else Some(1)
  {
  }

  /** Counted from podset 0: below a third of the podsets set 0 announces alone, and set 1 from there on. */
  lemma CoreThirds(n: nat, podset: nat)
    requires 3 <= podset < n
    ensures CoreSetAnnounces(n, podset, 0) <==> 3 * podset < n || 3 * podset >= 2 * n - 6
    ensures CoreSetAnnounces(n, podset, 1) <==> 3 * podset >= n
  {
  }

  function Row(card: Linecard, index: nat, family: Family): seq<Route>
    requires index < |card.vms|
  {
    if card.vms[index].OtherVm? then []
    else Defaults(card.QueryOf(index, family)) + Nets(card.QueryOf(index, family))
  }

  /** The loop over the VMs of one linecard, for one address family and before the routes are shuffled. */
  method GenerateT2(card: Linecard, family: Family) returns (rows: seq<seq<Route>>)
    ensures |rows| == |card.vms|
    ensures forall i :: 0 <= i < |rows| ==> rows[i] == Row(card, i, family)
  {
    rows := [];
    var n := |card.vms|;
    var firstThird := CeilThird(n);
    for index := 0 to n
      invariant |rows| == index
      invariant forall i :: 0 <= i < index ==> rows[i] == Row(card, i, family)
    {
      var routes := [];
      if !card.vms[index].OtherVm? {
        var setNum := if n == 1 then None else if index < firstThird then Some(0) else Some(1);
        var q := card.QueryOf(index, family).(setNum := setNum);
        var suffix;
        routes, suffix := GenerateRoutes(q);
      }
      rows := rows + [routes];
    }
  }

  /** In this topology the filters look at the podset only. */
  lemma PodsetDecides(card: Linecard, index: nat, family: Family, podset: nat, tor: nat, subnet: nat)
    requires index < |card.vms| && !card.vms[index].OtherVm? && podset < card.layout.podsets
    ensures Included(card.QueryOf(index, family), podset, tor, subnet) <==> card.Announces(index, podset)
  {
  }

  /** A VM's networks are exactly the positions of the podsets it announces. */
  lemma RowHasAnnounced(card: Linecard, index: nat, family: Family, r: Route)
    requires index < |card.vms| && IsNet(r) && !card.vms[index].OtherVm?
    ensures r in Nets(card.QueryOf(index, family)) <==>
            exists p: nat, t: nat, s: nat ::
              p < card.layout.podsets && t < card.layout.tors && s < card.layout.subnets
              && card.Announces(index, p) && r in RoutesAt(card.QueryOf(index, family), p, t, s)
  {
    var q := card.QueryOf(index, family);
    NetsExactly(q, r);
    forall p: nat, t: nat, s: nat | p < q.podsets
      ensures Included(q, p, t, s) <==> card.Announces(index, p)
    {
      PodsetDecides(card, index, family, p, t, s);
    }
  }

  /** Core VMs announce the default route of the family, leaf VMs none, and other VMs nothing at all. */
  lemma DefaultsFromCore(card: Linecard, index: nat, family: Family, r: Route)
    requires index < |card.vms| && r.Default?
    ensures r in Row(card, index, family) <==>
            && card.vms[index].CoreVm? && !(if r.v6 then family.V4? else family.V6?)
            && r.nexthop == (if r.v6 then card.layout.nexthop6 else card.layout.nexthop4)
            && r.aspath == Some([6666, 6667])
  {
    if !card.vms[index].OtherVm? && r in Nets(card.QueryOf(index, family)) {
      NetsPastOffset(card.QueryOf(index, family), r);
    }
  }

  // ---- what a row says ----

  /** The podsets that a VM announces: its own leaf podset and podset 2, or its share of the core podsets. */
  ghost predicate AnnouncesPodset(card: Linecard, index: nat, podset: nat)
    requires index < |card.vms|
  {
    var lone, low, n := |card.vms| == 1, 3 * index < |card.vms|, card.layout.podsets;
    match card.vms[index]
    case LeafVm => podset == 2 || (podset <= 1 && (lone || (podset == 0 <==> low)))
    case CoreVm => podset >= 3 && (lone || if low then 3 * podset < n || 3 * podset >= 2 * n - 6 else 3 * podset >= n)
    case OtherVm => false
  }

  /** The network of a position, as a VM of a T2 linecard announces it. */
  ghost predicate CardSpells(card: Linecard, index: nat, family: Family, r: Route, podset: nat, tor: nat, subnet: nat)
    requires index < |card.vms|
  {
    var q := card.layout;
    && IsNet(r) && (family.V4? ==> r.Net4?) && (family.V6? ==> r.Net6?)
    && RoutePaths.TailInRange(r.addr)
    && Value(r.addr) == PRIVATE_BASE + ((podset * q.tors + tor) * q.maxSubnets + subnet) * q.size
    && (r.Net4? ==> RoutePaths.HostBits(q.size, 32 - r.len))
    && r.nexthop == (if r.Net4? then q.nexthop4 else q.nexthop6)
    && r.aspath == Some(if card.vms[index].LeafVm? then [q.torAsnStart + tor]
                        else [q.leafAsnStart + podset, q.coreRaAsn])
  }

  lemma CardPath(card: Linecard, index: nat, family: Family, path: Option<seq<int>>, podset: nat, tor: nat)
    requires index < |card.vms| && !card.vms[index].OtherVm?
    ensures RoutePaths.PathTells(card.QueryOf(index, family), path, podset, tor) <==>
            path == Some(if card.vms[index].LeafVm? then [card.layout.torAsnStart + tor]
                         else [card.layout.leafAsnStart + podset, card.layout.coreRaAsn])
  {
    RoutePaths.AsPathTells(card.QueryOf(index, family), path, podset, tor);
  }

  lemma CardTold(card: Linecard, index: nat, family: Family, podset: nat, tor: nat, subnet: nat)
    requires index < |card.vms| && !card.vms[index].OtherVm?
    ensures RoutePaths.Told(card.QueryOf(index, family), podset, tor, subnet) <==> AnnouncesPodset(card, index, podset)
  {
    if |card.vms| > 1 { SetsSplitAtThird(card, index); }
  }

  /** The networks of a VM, route by route. */
  lemma RowSpells(card: Linecard, index: nat, family: Family, r: Route)
    requires index < |card.vms| && IsNet(r)
    ensures r in Row(card, index, family) <==>
            exists p: nat, t: nat, s: nat ::
              p < card.layout.podsets && t < card.layout.tors && s < card.layout.subnets
              && AnnouncesPodset(card, index, p) && CardSpells(card, index, family, r, p, t, s)
  {
    if !card.vms[index].OtherVm? {
      var q := card.QueryOf(index, family);
      RoutePaths.NetsSpell(q, r);
      forall p: nat, t: nat, s: nat
        ensures RoutePaths.Spells(q, r, p, t, s) <==> CardSpells(card, index, family, r, p, t, s)
        ensures RoutePaths.Told(q, p, t, s) <==> AnnouncesPodset(card, index, p)
      {
        CardPath(card, index, family, r.aspath, p, t);
        CardTold(card, index, family, p, t, s);
      }
    }
  }

  // ---- coverage ----

  /** Some VM with the given role announces the podset. */
  ghost predicate Covered(card: Linecard, role: Role, podset: nat) {
    exists i :: 0 <= i < |card.vms| && card.vms[i] == role && card.Announces(i, podset)
  }

  ghost predicate HasInSet(card: Linecard, role: Role, setNum: nat) {
    exists i :: 0 <= i < |card.vms| && card.vms[i] == role && card.SetNum(i) == Some(setNum)
  }

  ghost predicate HasRole(card: Linecard, role: Role) {
    role in card.vms
  }

  lemma RoleHasSet(card: Linecard, role: Role)
    requires |card.vms| > 1
    ensures HasRole(card, role) <==> HasInSet(card, role, 0) || HasInSet(card, role, 1)
  {
    if HasRole(card, role) {
      var i :| 0 <= i < |card.vms| && card.vms[i] == role;
      assert card.SetNum(i) == Some(0) || card.SetNum(i) == Some(1);
    }
  }

  /** A podset of a linecard with several VMs is covered when a VM of a set that announces it has the role. */
  lemma CoveredBySets(card: Linecard, role: Role, podset: nat)
    requires |card.vms| > 1 && podset < card.layout.podsets
    ensures Covered(card, CoreVm, podset) <==>
            podset >= 3 && ((HasInSet(card, CoreVm, 0) && CoreSetAnnounces(card.layout.podsets, podset, 0))
                         || (HasInSet(card, CoreVm, 1) && CoreSetAnnounces(card.layout.podsets, podset, 1)))
    ensures Covered(card, LeafVm, podset) <==>
            podset <= 2 && ((HasInSet(card, LeafVm, 0) && LeafSetAnnounces(podset, 0))
                         || (HasInSet(card, LeafVm, 1) && LeafSetAnnounces(podset, 1)))
  {
    forall i | 0 <= i < |card.vms| ensures card.SetNum(i) == Some(0) || card.SetNum(i) == Some(1) {
    }
  }

  /**
   The core VMs of a linecard together announce every core podset exactly when the split leaves a core VM in
   each set that owns a podset alone: set 0 does from 10 podsets on, set 1 from 8 on.
   */
  lemma CoreCoverage(card: Linecard)
    requires card.vms != []
    ensures (forall p: nat :: 3 <= p < card.layout.podsets ==> Covered(card, CoreVm, p)) <==>
            (card.layout.podsets > 3 ==>
               && HasRole(card, CoreVm)
               && (|card.vms| > 1 && card.layout.podsets >= 10 ==> HasInSet(card, CoreVm, 0))
               && (|card.vms| > 1 && card.layout.podsets >= 8 ==> HasInSet(card, CoreVm, 1)))
  {
    var n := card.layout.podsets;
    if |card.vms| == 1 {
      forall p: nat | 3 <= p < n ensures Covered(card, CoreVm, p) <==> HasRole(card, CoreVm) {
        if HasRole(card, CoreVm) { assert card.Announces(0, p); }
      }
      if n > 3 { assert Covered(card, CoreVm, 3) <==> HasRole(card, CoreVm); }
    } else if n > 3 {
      RoleHasSet(card, CoreVm);
      forall p: nat | 3 <= p < n ensures Covered(card, CoreVm, p) <==>
          (HasInSet(card, CoreVm, 0) && CoreSetAnnounces(n, p, 0))
              || (HasInSet(card, CoreVm, 1) && CoreSetAnnounces(n, p, 1)) {
        CoveredBySets(card, CoreVm, p);
      }
      SetsOwnCorePodsets(n);
    }
  }

  /** Which core podsets one set owns alone: 3 from ten podsets on, and one in the middle from eight on. */
  lemma SetsOwnCorePodsets(n: nat)
    requires n > 3
    ensures forall p: nat :: 3 <= p < n ==> CoreSetAnnounces(n, p, 0) || CoreSetAnnounces(n, p, 1)
    ensures n >= 10 <==> !CoreSetAnnounces(n, 3, 1)
    ensures n < 10 ==> forall p: nat :: 3 <= p < n ==> CoreSetAnnounces(n, p, 1)
    ensures n >= 8 ==> var p := if n < 10 then 3 else CeilThird(n - 3) + 1; 3 <= p < n && !CoreSetAnnounces(n, p, 0)
    ensures n < 8 ==> forall p: nat :: 3 <= p < n ==> CoreSetAnnounces(n, p, 0)
  {
  }

  /** The leaf VMs together announce podsets 0 to 2 exactly when both sets hold a leaf, or one VM does it all. */
  lemma LeafCoverage(card: Linecard)
    requires card.vms != []
    ensures (forall p: nat :: p <= 2 && p < card.layout.podsets ==> Covered(card, LeafVm, p)) <==>
            (card.layout.podsets > 0 ==>
               && HasRole(card, LeafVm)
               && (|card.vms| > 1 ==> HasInSet(card, LeafVm, 0))
               && (|card.vms| > 1 && card.layout.podsets > 1 ==> HasInSet(card, LeafVm, 1)))
  {
    var n := card.layout.podsets;
    if n > 0 && |card.vms| == 1 {
      forall p: nat | p <= 2 && p < n ensures Covered(card, LeafVm, p) <==> HasRole(card, LeafVm) {
        if HasRole(card, LeafVm) { assert card.Announces(0, p); }
      }
      assert Covered(card, LeafVm, 0) <==> HasRole(card, LeafVm);
    } else if n > 0 {
      RoleHasSet(card, LeafVm);
      forall p: nat | p <= 2 && p < n ensures Covered(card, LeafVm, p) <==>
          (HasInSet(card, LeafVm, 0) && LeafSetAnnounces(p, 0))
              || (HasInSet(card, LeafVm, 1) && LeafSetAnnounces(p, 1)) {
        CoveredBySets(card, LeafVm, p);
      }
      assert LeafSetAnnounces(0, 0) && !LeafSetAnnounces(0, 1) && LeafSetAnnounces(1, 1) && !LeafSetAnnounces(1, 0);
      assert Covered(card, LeafVm, 0) <==> HasInSet(card, LeafVm, 0);
      assert n > 1 ==> (Covered(card, LeafVm, 1) <==> HasInSet(card, LeafVm, 1));
    }
  }

  /** A linecard whose VMs all have one role covers that role's podsets, for any number of VMs. */
  lemma UniformLinecardCovers(card: Linecard, role: Role, podset: nat)
    requires card.vms != [] && podset < card.layout.podsets
    requires forall i :: 0 <= i < |card.vms| ==> card.vms[i] == role
    requires (role.CoreVm? && podset >= 3) || (role.LeafVm? && podset <= 2)
    ensures Covered(card, role, podset)
  {
    var n := |card.vms|;
    assert card.vms[0] == role && card.vms[n - 1] == role;
    if n > 1 {
      assert card.SetNum(0) == Some(0) && card.SetNum(n - 1) == Some(1);
    }
    CoreCoverage(card);
    LeafCoverage(card);
  }

  /** A linecard that mixes roles can leave core podsets unannounced: here the core VM falls into set 1. */
  lemma MixedLinecardMisses(layout: Query)
    requires layout.podsets >= 10
    ensures var card := Linecard(layout, [LeafVm, CoreVm]);
            HasRole(card, CoreVm) && !Covered(card, CoreVm, 3)
  {
  }

  // ---- leaf and core prefixes ----

  /** The first core podset that a core VM of the set announces, where there are core podsets. */
  function FirstCore(podsets: nat, setNum: Option<nat>): nat {
    if setNum == Some(0) && (podsets == 8 || podsets == 9) then 4
    else if setNum == Some(1) && podsets >= 10 then CeilThird(podsets - 3) + 1
    else 3
  }

  lemma FirstCoreAnnounced(card: Linecard, j: nat, p: nat)
    requires j < |card.vms| && card.vms[j].CoreVm? && card.layout.podsets > 3
    ensures var first := FirstCore(card.layout.podsets, card.SetNum(j));
            && 3 <= first && card.Announces(j, first)
            && (card.Announces(j, p) ==> first <= p)
  {
  }

  /** Every leaf VM announces podset 2 of a layout with core podsets, and nothing past it. */
  lemma LastLeafAnnounced(card: Linecard, i: nat, p: nat)
    requires i < |card.vms| && card.vms[i].LeafVm? && card.layout.podsets > 3
    ensures card.Announces(i, 2) && (card.Announces(i, p) ==> p <= 2)
  {
  }

  /** The reserved subnets between the last leaf cell and the first core cell of the two VMs. */
  function LeafCoreGap(card: Linecard, j: nat): nat
    requires j < |card.vms|
  {
    ((FirstCore(card.layout.podsets, card.SetNum(j)) - 3) * card.layout.tors + 1) * card.layout.maxSubnets
  }

  /** The subnets of the last leaf tor end before the first core prefix. */
  predicate LeafRoomy(card: Linecard, j: nat)
    requires j < |card.vms|
  {
    card.layout.podsets <= 3 || card.layout.tors == 0 || card.layout.subnets <= LeafCoreGap(card, j)
  }

  /** Positions of two calls over one layout, with enough reserved slots between their cells. */
  lemma CellGap(q: Query, u: Query, p: nat, t: nat, s: nat, p': nat, t': nat, s': nat, first: nat)
    requires q.tors == u.tors && q.maxSubnets == u.maxSubnets && q.size == u.size && q.offset == u.offset
    requires p <= 2 && 3 <= first <= p' && t < q.tors && s < q.subnets
    requires q.subnets <= ((first - 3) * q.tors + 1) * q.maxSubnets
    ensures Suffix(q, p, t, s) + q.size <= Suffix(u, p', t', s')
  {
    var near, far, gap := Cell(q, p, t), Cell(u, p', t'), (first - 3) * q.tors + 1;
    var x, y := Slot(q, p, t, s), Slot(u, p', t', s');
    assert far - near >= gap by { CellDistance(q.tors, p, t, p', t', first); }
    assert x < y by { SlotGap(near, s, far, s', q.subnets, gap, q.maxSubnets); }
    assert Suffix(q, p, t, s) == x * q.size + q.offset by { SuffixOfSlot(q, p, t, s); }
    assert Suffix(u, p', t', s') == y * q.size + q.offset by { SuffixOfSlot(u, p', t', s'); }
    EndsBefore(x, y, q.size);
  }

  lemma SlotGap(near: nat, s: nat, far: nat, s': nat, subnets: nat, gap: nat, max: nat)
    requires far - near >= gap > 0 && s < subnets <= gap * max
    ensures near * max + s < far * max + s'
  {
    MulMonotone(gap, far - near, max);
    SlotsOrdered(near, s, far, s', subnets, max);
  }

  lemma CellDistance(tors: nat, p: nat, t: nat, p': nat, t': nat, first: nat)
    requires p <= 2 && 3 <= first <= p' && t < tors
    ensures p' * tors + t' - (p * tors + t) >= (first - 3) * tors + 1
  {
    MulMonotone(p, 2, tors);
    MulMonotone(first, p', tors);
    assert (first - 3) * tors == first * tors - 3 * tors;
  }

  lemma LeafPrefixEnds(card: Linecard, i: nat, j: nat, family: Family, x: Route, y: Route)
    requires i < |card.vms| && j < |card.vms| && card.vms[i].LeafVm? && card.vms[j].CoreVm? && LeafRoomy(card, j)
    requires x in Nets(card.QueryOf(i, family)) && y in Nets(card.QueryOf(j, family))
    ensures IsNet(x) && IsNet(y) && Value(x.addr) + card.layout.size <= Value(y.addr)
  {
    var qx, qy := card.QueryOf(i, family), card.QueryOf(j, family);
    var p, t, s := EmittedPosition(qx, qx.podsets, 0, 0, x);
    var p', t', s' := EmittedPosition(qy, qy.podsets, 0, 0, y);
    RoutesAtShape(qx, p, t, s);
    RoutesAtShape(qy, p', t', s');
    PodsetDecides(card, i, family, p, t, s);
    PodsetDecides(card, j, family, p', t', s');
    LastLeafAnnounced(card, i, p);
    FirstCoreAnnounced(card, j, p');
    var first := FirstCore(card.layout.podsets, card.SetNum(j));
    CellGap(qx, qy, p, t, s, p', t', s', first);
  }

  /** The slot behind the last reserved one of the leaf's last tor is the core VM's first. */
  lemma SharedSuffix(q: Query, u: Query, first: nat)
    requires q.tors == u.tors && q.maxSubnets == u.maxSubnets && q.size == u.size && q.offset == u.offset
    requires first >= 3 && q.tors > 0
    ensures Suffix(q, 2, q.tors - 1, ((first - 3) * q.tors + 1) * q.maxSubnets) == Suffix(u, first, 0, 0)
  {
    var d := ((first - 3) * q.tors + 1) * q.maxSubnets;
    SuffixOfSlot(q, 2, q.tors - 1, d);
    SuffixOfSlot(u, first, 0, 0);
    calc {
      Cell(u, first, 0) * q.maxSubnets;
      { assert first * q.tors == (first - 3) * q.tors + 3 * q.tors; }
      ((first - 3) * q.tors + 1 + Cell(q, 2, q.tors - 1)) * q.maxSubnets;
      d + Cell(q, 2, q.tors - 1) * q.maxSubnets;
    }
    assert Slot(q, 2, q.tors - 1, d) == Slot(u, first, 0, 0);
  }

  lemma SharedAddress(card: Linecard, i: nat, j: nat, family: Family) returns (x: Route, y: Route)
    requires i < |card.vms| && j < |card.vms| && card.vms[i].LeafVm? && card.vms[j].CoreVm? && !LeafRoomy(card, j)
    ensures x in Nets(card.QueryOf(i, family)) && y in Nets(card.QueryOf(j, family))
    ensures IsNet(x) && IsNet(y) && Value(x.addr) == Value(y.addr)
  {
    var q, u := card.QueryOf(i, family), card.QueryOf(j, family);
    var first, d := FirstCore(card.layout.podsets, card.SetNum(j)), LeafCoreGap(card, j);
    FirstCoreAnnounced(card, j, first);
    LastLeafAnnounced(card, i, 2);
    SharedSuffix(q, u, first);
    x := FirstRoute(card, i, family, 2, q.tors - 1, d);
    y := FirstRoute(card, j, family, first, 0, 0);
  }

  lemma FirstRoute(card: Linecard, i: nat, family: Family, p: nat, t: nat, s: nat) returns (r: Route)
    requires i < |card.vms| && !card.vms[i].OtherVm? && card.Announces(i, p)
    requires t < card.layout.tors && s < card.layout.subnets
    ensures r in Nets(card.QueryOf(i, family)) && IsNet(r)
    ensures Value(r.addr) == PRIVATE_BASE + Suffix(card.QueryOf(i, family), p, t, s)
  {
    var q := card.QueryOf(i, family);
    assert |RoutesAt(q, p, t, s)| > 0;
    r := RoutesAt(q, p, t, s)[0];
    RoutesAtShape(q, p, t, s);
    PodsetDecides(card, i, family, p, t, s);
    PositionEmitted(q, q.podsets, 0, 0, p, t, s, r);
  }

  /**
   A leaf VM and a core VM of a linecard announce disjoint prefixes, the leaf's below the core's, exactly when the
   subnets of a tor fit into the slots up to the first core podset the core VM announces; otherwise they announce
   one address both.
   */
  lemma LeafBelowCore(card: Linecard, i: nat, j: nat, family: Family)
    requires i < |card.vms| && j < |card.vms| && card.vms[i].LeafVm? && card.vms[j].CoreVm?
    ensures FibT0.Apart(card.layout.size, Nets(card.QueryOf(i, family)), Nets(card.QueryOf(j, family))) <==>
            LeafRoomy(card, j)
    ensures LeafRoomy(card, j) ==>
              forall x, y :: x in Nets(card.QueryOf(i, family)) && y in Nets(card.QueryOf(j, family)) ==>
                IsNet(x) && IsNet(y) && Value(x.addr) + card.layout.size <= Value(y.addr)
  {
    if LeafRoomy(card, j) {
      forall x, y | x in Nets(card.QueryOf(i, family)) && y in Nets(card.QueryOf(j, family))
        ensures IsNet(x) && IsNet(y) && Value(x.addr) + card.layout.size <= Value(y.addr)
      {
        LeafPrefixEnds(card, i, j, family, x, y);
      }
    } else {
      var x, y := SharedAddress(card, i, j, family);
    }
  }
}
