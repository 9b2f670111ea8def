/**
 `fib_t0` of ansible/library/announce_routes.py: VMs are split into neighbour groups, and the offset that
 their routes start from grows by the last suffix used whenever a group ends.
 */
module FibT0 {
  import opened Common
  import opened Routes

  /** `leaf[i]` tells whether the i-th VM in name order is a leaf; the others are tors. */
  datatype Topology = Topology(
    podsets: nat, tors: nat, subnets: nat, maxSubnets: nat, size: Positive,
    spineAsn: int, leafAsnStart: int, torAsnStart: int, nexthop4: string, nexthop6: string,
    noDefaultRoute: bool, generate4: bool, generate6: bool,
    leaf: seq<bool>, groups: nat)
  {
    function QueryFor(family: Family, isLeaf: bool, offset: nat): Query {
      var nexthop := if family.V4? then nexthop4 else nexthop6;
      Query(family, podsets, tors, subnets, maxSubnets, size, spineAsn, leafAsnStart, torAsnStart, 65900,
            nexthop, nexthop, Plain, if isLeaf then Leaf else Tor, None, None, noDefaultRoute, false, offset)
    }

    function Group(index: nat): nat
      requires leaf != []
    {
      index * groups / |leaf|
    }

    /** A group ends after this VM. */
    predicate Boundary(index: nat)
      requires leaf != []
    {
      Group(index) != Group(index + 1)
    }

    /** What the config must provide for the groups to differ at all. */
    predicate Regular() {
      && podsets >= 1 && tors >= 1 && (podsets > 1 || tors > 1)
      && 1 <= subnets <= maxSubnets
      && (generate4 || generate6)
    }
  }

  /** The rows `topo_routes[vm]["ipv4"]` and `["ipv6"]`, absent when the family is not generated. */
  datatype VmRoutes = VmRoutes(v4: Option<seq<Route>>, v6: Option<seq<Route>>)

  function Announced(t: Topology, isLeaf: bool, offset: nat): VmRoutes {
    var q4, q6 := t.QueryFor(V4, isLeaf, offset), t.QueryFor(V6, isLeaf, offset);
    VmRoutes(if t.generate4 then Some(Defaults(q4) + Nets(q4)) else None,
             if t.generate6 then Some(Defaults(q6) + Nets(q6)) else None)
  }

  /** The variable `last_suffix` after a VM. */
  function SuffixAfter(t: Topology, isLeaf: bool, offset: nat): nat {
    if t.generate6 then Final(t.QueryFor(V6, isLeaf, offset))
    else if t.generate4 then Final(t.QueryFor(V4, isLeaf, offset))
    else 0
  }

  /** The variable `current_routes_offset` at the index-th VM. */
  function Offset(t: Topology, index: nat): nat
    requires index <= |t.leaf|
  {
    if index == 0 then 0
    else
      var before := Offset(t, index - 1);
      if t.Boundary(index - 1) then before + SuffixAfter(t, t.leaf[index - 1], before) else before
  }

  /** What the loop body computes for one VM; the suffix is kept when no family is generated. */
  method VmRow(t: Topology, isLeaf: bool, offset: nat, lastSuffix: nat) returns (row: VmRoutes, suffix: nat)
    ensures row == Announced(t, isLeaf, offset)
    ensures suffix == if t.generate4 || t.generate6 then SuffixAfter(t, isLeaf, offset) else lastSuffix
  {
    row, suffix := VmRoutes(None, None), lastSuffix;
    if t.generate4 {
      var routes;
      routes, suffix := GenerateRoutes(t.QueryFor(V4, isLeaf, offset));
      row := row.(v4 := Some(routes));
    }
    if t.generate6 {
      var routes;
      routes, suffix := GenerateRoutes(t.QueryFor(V6, isLeaf, offset));
      row := row.(v6 := Some(routes));
    }
  }

  /** The rows of the first VMs. */
  function Rows(t: Topology, index: nat): (rows: seq<VmRoutes>)
    requires index <= |t.leaf|
    ensures |rows| == index
  {
    if index == 0 then [] else Rows(t, index - 1) + [Announced(t, t.leaf[index - 1], Offset(t, index - 1))]
  }

  /** Row i is what VM i announces from the offset that the groups before it leave. */
  lemma {:induction false} RowAt(t: Topology, index: nat, i: nat)
    requires i < index <= |t.leaf|
    ensures Rows(t, index)[i] == Announced(t, t.leaf[i], Offset(t, i))
  {
    if i < index - 1 { RowAt(t, index - 1, i); }
  }

  method FibRoutes(t: Topology) returns (topoRoutes: seq<VmRoutes>)
    ensures topoRoutes == Rows(t, |t.leaf|)
  {
    topoRoutes := [];
    var offset, lastSuffix := 0, 0;
    for index := 0 to |t.leaf|
      invariant topoRoutes == Rows(t, index) && offset == Offset(t, index)
      invariant !t.generate4 && !t.generate6 ==> lastSuffix == 0
    {
      var row;
      row, lastSuffix := VmRow(t, t.leaf[index], offset, lastSuffix);
      topoRoutes := topoRoutes + [row];
      var groupIndex, nextGroupIndex := t.Group(index), t.Group(index + 1);
      if groupIndex != nextGroupIndex {
        offset := offset + lastSuffix;
      }
    }
  }

  // ---- one VM ----

  /** How far the last subnet of the layout lies past the offset. */
  ghost function Span(q: Query): int {
    var perTor := q.maxSubnets * q.size;
    (q.podsets - 1) * (q.tors * perTor) + (q.tors - 1) * perTor + (q.subnets - 1) * q.size
  }

  ghost predicate LeafQuery(q: Query) {
    && q.router.Leaf? && q.topo.Plain?
    && q.podsets >= 1 && q.tors >= 1 && (q.podsets > 1 || q.tors > 1)
    && 1 <= q.subnets <= q.maxSubnets
  }

  /** The last position is never the skipped one, so the call returns its suffix. */
  lemma LeafFinal(q: Query)
    requires LeafQuery(q)
    ensures Final(q) == Suffix(q, q.podsets - 1, q.tors - 1, q.subnets - 1) == q.offset + Span(q)
    ensures Span(q) > 0
  {
    assert Final(q) == LastSuffix(q, q.podsets - 1, q.tors, 0) == LastSuffix(q, q.podsets - 1, q.tors - 1, q.subnets);
    SuffixSteps(q, q.podsets - 1, q.tors - 1, q.subnets - 1);
    SpanPositive(q.podsets - 1, q.tors - 1, q.subnets - 1, q.tors, q.maxSubnets, q.size);
  }

  lemma SpanPositive(p: nat, t: nat, s: nat, tors: nat, m: nat, z: nat)
    requires tors > 0 && m > 0 && z > 0 && (p > 0 || t > 0)
    ensures p * (tors * (m * z)) + t * (m * z) + s * z > 0
  {
    MulMonotone(1, m, z);
    MulMonotone(1, tors, m * z);
    if p > 0 { MulMonotone(1, p, tors * (m * z)); } else { MulMonotone(1, t, m * z); }
  }

  /** Positions inside the layout lie between the second tor's first subnet and the last subnet. */
  lemma PositionInRange(q: Query, p: nat, t: nat, s: nat)
    requires LeafQuery(q) && p < q.podsets && t < q.tors && s < q.subnets && !(p == 0 && t == 0)
    ensures q.offset + q.size <= Suffix(q, p, t, s) <= q.offset + Span(q)
  {
    SuffixSteps(q, p, t, s);
    var perTor := q.maxSubnets * q.size;
    MulMonotone(1, q.maxSubnets, q.size);
    MulMonotone(1, q.tors, perTor);
    LinearRange(p, t, s, q.podsets - 1, q.tors - 1, q.subnets - 1, q.tors * perTor, perTor, q.size);
  }

  lemma LinearRange(p: nat, t: nat, s: nat, p': nat, t': nat, s': nat, a: nat, b: nat, z: nat)
    requires p <= p' && t <= t' && s <= s' && z <= b <= a && (p > 0 || t > 0)
    ensures z <= p * a + t * b + s * z <= p' * a + t' * b + s' * z
  {
    LinearUpper(p, t, s, p', t', s', a, b, z);
    LinearLower(p, t, s, a, b, z);
  }

  lemma LinearUpper(p: nat, t: nat, s: nat, p': nat, t': nat, s': nat, a: nat, b: nat, z: nat)
    requires p <= p' && t <= t' && s <= s'
    ensures p * a + t * b + s * z <= p' * a + t' * b + s' * z
  {
    MulMonotone(p, p', a);
    MulMonotone(t, t', b);
    MulMonotone(s, s', z);
  }

  lemma LinearLower(p: nat, t: nat, s: nat, a: nat, b: nat, z: nat)
    requires z <= b <= a && (p > 0 || t > 0)
    ensures z <= p * a + t * b + s * z
  {
    MulMonotone(0, p, a);
    MulMonotone(0, t, b);
    MulMonotone(0, s, z);
    if p > 0 { MulMonotone(1, p, a); } else { MulMonotone(1, t, b); }
  }

  lemma LeafRange(q: Query, r: Route)
    requires LeafQuery(q) && r in Nets(q)
    ensures IsNet(r)
    ensures PRIVATE_BASE + q.offset + q.size <= Value(r.addr) <= PRIVATE_BASE + Final(q)
  {
    NetsExactly(q, r);
    var p: nat, t: nat, s: nat :| p < q.podsets && t < q.tors && s < q.subnets && Included(q, p, t, s)
                                  && r in RoutesAt(q, p, t, s);
    RoutesAtShape(q, p, t, s);
    PositionInRange(q, p, t, s);
    LeafFinal(q);
  }

  /** A leaf always announces something: the last position. */
  lemma LeafSpeaks(q: Query)
    requires LeafQuery(q)
    ensures exists r :: r in Nets(q)
  {
    var p, t, s := q.podsets - 1, q.tors - 1, q.subnets - 1;
    assert |RoutesAt(q, p, t, s)| > 0;
    var r := RoutesAt(q, p, t, s)[0];
    assert Included(q, p, t, s);
    PositionEmitted(q, q.podsets, 0, 0, p, t, s, r);
    assert r in Nets(q);
  }

  /** A tor VM matches no tor index here: no position is included, and the suffix stays 0. */
  lemma {:induction false} TorSilent(q: Query, podset: nat, tor: nat, subnet: nat)
    requires q.router.Tor? && q.torIndex.None?
    ensures Emitted(q, podset, tor, subnet) == [] && LastSuffix(q, podset, tor, subnet) == 0
    decreases podset, tor, subnet
  {
    if subnet > 0 {
      TorSilent(q, podset, tor, subnet - 1);
    } else if tor > 0 {
      TorSilent(q, podset, tor - 1, q.subnets);
    } else if podset > 0 {
      TorSilent(q, podset - 1, q.tors, 0);
    }
  }

  // ---- the offsets ----

  lemma SuffixAfterIs(t: Topology, isLeaf: bool, offset: nat)
    requires t.Regular()
    ensures SuffixAfter(t, isLeaf, offset) == if isLeaf then offset + Span(t.QueryFor(V4, true, 0)) else 0
    ensures Span(t.QueryFor(V4, true, 0)) > 0
  {
    var q4, q6 := t.QueryFor(V4, isLeaf, offset), t.QueryFor(V6, isLeaf, offset);
    LeafFinal(t.QueryFor(V4, true, offset));
    if isLeaf {
      LeafFinal(q4);
      LeafFinal(q6);
    } else {
      TorSilent(q4, q4.podsets, 0, 0);
      TorSilent(q6, q6.podsets, 0, 0);
    }
  }

  /** Some leaf VM between i and j closes its group. */
  ghost predicate LeafBoundary(t: Topology, i: nat, j: nat)
    requires i <= j <= |t.leaf|
  {
    exists k :: i <= k < j && t.leaf[k] && t.Boundary(k)
  }

  /** The offset stands still until a leaf closes a group, and then passes everything announced before. */
  lemma {:induction false} OffsetGrows(t: Topology, i: nat, j: nat)
    requires t.Regular() && i <= j <= |t.leaf|
    ensures LeafBoundary(t, i, j) ==> Offset(t, j) >= Offset(t, i) + Span(t.QueryFor(V4, true, 0))
    ensures !LeafBoundary(t, i, j) ==> Offset(t, j) == Offset(t, i)
    decreases j - i
  {
    if i == j {
    } else {
      OffsetGrows(t, i, j - 1);
      SuffixAfterIs(t, t.leaf[j - 1], Offset(t, j - 1));
      if t.leaf[j - 1] && t.Boundary(j - 1) {
        assert LeafBoundary(t, i, j);
      } else {
        assert LeafBoundary(t, i, j) <==> LeafBoundary(t, i, j - 1);
      }
    }
  }

  // ---- the groups ----

  ghost predicate Apart(size: nat, xs: seq<Route>, ys: seq<Route>) {
    forall x, y :: x in xs && y in ys ==>
      && IsNet(x) && IsNet(y) && Value(x.addr) != Value(y.addr)
      && (Value(x.addr) + size <= Value(y.addr) || Value(y.addr) + size <= Value(x.addr))
  }

  lemma LaterGroupApart(t: Topology, family: Family, x: nat, y: nat)
    requires t.Regular() && y >= x + Span(t.QueryFor(V4, true, 0))
    ensures Apart(t.size, Nets(t.QueryFor(family, true, x)), Nets(t.QueryFor(family, true, y)))
  {
    var qx, qy := t.QueryFor(family, true, x), t.QueryFor(family, true, y);
    LeafFinal(qx);
    forall r, s | r in Nets(qx) && s in Nets(qy)
      ensures IsNet(r) && IsNet(s) && Value(r.addr) + t.size <= Value(s.addr)
    {
      LeafRange(qx, r);
      LeafRange(qy, s);
    }
  }

  /**
   Two leaf VMs announce disjoint prefixes exactly when a leaf VM closes a group between them; otherwise
   they announce the very same routes.
   */
  lemma LeavesApartIffLeafBoundary(t: Topology, family: Family, i: nat, j: nat)
    requires t.Regular() && i < j < |t.leaf| && t.leaf[i] && t.leaf[j]
    ensures LeafBoundary(t, i, j) <==>
            Apart(t.size, Nets(t.QueryFor(family, true, Offset(t, i))), Nets(t.QueryFor(family, true, Offset(t, j))))
    ensures !LeafBoundary(t, i, j) ==> Announced(t, t.leaf[i], Offset(t, i)) == Announced(t, t.leaf[j], Offset(t, j))
  {
    OffsetGrows(t, i, j);
    if LeafBoundary(t, i, j) {
      LaterGroupApart(t, family, Offset(t, i), Offset(t, j));
    } else {
      LeafSpeaks(t.QueryFor(family, true, Offset(t, i)));
    }
  }

  lemma GroupMonotone(t: Topology, i: nat, j: nat)
    requires t.leaf != [] && i <= j
    ensures t.Group(i) <= t.Group(j)
  {
    MulMonotone(i, j, t.groups);
    DivMonotone(i * t.groups, j * t.groups, |t.leaf|);
  }

  lemma DivMonotone(x: nat, y: nat, m: nat)
    requires x <= y && m > 0
    ensures x / m <= y / m
  {
    if x / m > y / m {
      MulMonotone(y / m + 1, x / m, m);
    }
  }

  // ---- how many VMs a group has ----

  /** The first g of the groups end behind this many VMs: g shares of n, rounded up. */
  function GroupEnd(n: nat, groups: Positive, g: nat): nat {
    (g * n + groups - 1) / groups
  }

  lemma CeilAbove(k: nat, x: nat, m: Positive)
    ensures k < (x + m - 1) / m <==> k * m < x
  {
    var q, r := (x + m - 1) / m, (x + m - 1) % m;
    assert x + m - 1 == q * m + r;
    if k < q { MulMonotone(k + 1, q, m); } else { MulMonotone(q, k, m); }
  }

  lemma FloorBelow(x: nat, m: Positive, g: nat)
    ensures x / m < g <==> x < g * m
  {
    var q := x / m;
    assert x == q * m + x % m;
    if q < g { MulMonotone(q + 1, g, m); } else { MulMonotone(g, q, m); }
  }

  /** A VM belongs to the first g groups exactly when it stands before their end. */
  lemma InFirstGroups(t: Topology, index: nat, g: nat)
    requires t.leaf != [] && t.groups > 0
    ensures t.Group(index) < g <==> index < GroupEnd(|t.leaf|, t.groups, g)
  {
    FloorBelow(index * t.groups, |t.leaf|, g);
    CeilAbove(index, g * |t.leaf|, t.groups);
  }

  /** A group ends behind VM k exactly when k + 1 VMs are a whole number of shares, rounded up. */
  lemma BoundaryExactly(t: Topology, k: nat)
    requires t.leaf != [] && t.groups > 0
    ensures t.Boundary(k) <==> exists g: nat :: GroupEnd(|t.leaf|, t.groups, g) == k + 1
  {
    GroupMonotone(t, k, k + 1);
    if t.Boundary(k) {
      var g := t.Group(k + 1);
      InFirstGroups(t, k, g);
      InFirstGroups(t, k + 1, g);
      assert GroupEnd(|t.leaf|, t.groups, g) == k + 1;
    }
    if g: nat :| GroupEnd(|t.leaf|, t.groups, g) == k + 1 {
      InFirstGroups(t, k, g);
      InFirstGroups(t, k + 1, g);
    }
  }

  /** The groups take up all VMs, and sizes differ by at most one: no group is empty unless there are too few VMs. */
  lemma GroupSizes(n: nat, groups: Positive, g: nat)
    ensures GroupEnd(n, groups, 0) == 0 && GroupEnd(n, groups, groups) == n
    ensures n / groups <= GroupEnd(n, groups, g + 1) - GroupEnd(n, groups, g) <= n / groups + 1
    ensures n >= groups ==> GroupEnd(n, groups, g) < GroupEnd(n, groups, g + 1)
  {
    DivModUnique(groups - 1, groups, 0, groups - 1);
    DivModUnique(groups * n + groups - 1, groups, n, groups - 1);
    var x, y := g * n + groups - 1, n;
    assert (g + 1) * n + groups - 1 == x + y;
    DivAdds(x, y, groups);
    if n >= groups { DivMonotone(groups, n, groups); }
  }

  lemma DivAdds(x: nat, y: nat, m: Positive)
    ensures x / m + y / m <= (x + y) / m <= x / m + y / m + 1
  {
    var q, r := x / m + y / m, x % m + y % m;
    assert x + y == q * m + r;
    if r < m {
      DivModUnique(x + y, m, q, r);
    } else {
      assert (q + 1) * m == q * m + m;
      DivModUnique(x + y, m, q + 1, r - m);
    }
  }

  /** Some group ends behind VM i and not behind VM j. */
  ghost predicate Parted(n: nat, groups: nat, i: nat, j: nat) {
    groups > 0 && exists g: nat :: i < GroupEnd(n, groups, g) <= j
  }

  /** Without groups no VM closes one. */
  lemma NoGroups(t: Topology, k: nat)
    requires t.leaf != [] && t.groups == 0
    ensures !t.Boundary(k)
  {
    DivModUnique(0, |t.leaf|, 0, 0);
  }

  lemma PartedMeansBoundary(t: Topology, i: nat, j: nat)
    requires i <= j <= |t.leaf| && t.leaf != []
    ensures Parted(|t.leaf|, t.groups, i, j) <==> exists k :: i <= k < j && t.Boundary(k)
  {
    var n := |t.leaf|;
    if t.groups == 0 {
      forall k ensures !t.Boundary(k) {
        NoGroups(t, k);
      }
      return;
    }
    if g: nat :| i < GroupEnd(n, t.groups, g) <= j {
      BoundaryExactly(t, GroupEnd(n, t.groups, g) - 1);
    }
    if k :| i <= k < j && t.Boundary(k) {
      BoundaryExactly(t, k);
      var g: nat :| GroupEnd(n, t.groups, g) == k + 1;
      assert i < GroupEnd(n, t.groups, g) <= j;
    }
  }

  /**
   The promise of neighbour groups, for leaf VMs: two VMs of one group announce the same routes, and VMs
   that an end of a group parts announce disjoint prefixes, however many groups there are.
   */
  lemma NeighbourGroups(t: Topology, family: Family, i: nat, j: nat)
    requires t.Regular() && i < j < |t.leaf| && forall k :: 0 <= k < |t.leaf| ==> t.leaf[k]
    ensures Parted(|t.leaf|, t.groups, i, j) <==>
            Apart(t.size, Nets(t.QueryFor(family, true, Offset(t, i))), Nets(t.QueryFor(family, true, Offset(t, j))))
    ensures !Parted(|t.leaf|, t.groups, i, j) ==> Rows(t, |t.leaf|)[i] == Rows(t, |t.leaf|)[j]
  {
    PartedMeansBoundary(t, i, j);
    LeavesApartIffLeafBoundary(t, family, i, j);
    RowAt(t, |t.leaf|, i);
    RowAt(t, |t.leaf|, j);
  }

  /** VM i is in the group behind the first g. */
  ghost predicate InGroup(t: Topology, g: nat, i: nat)
    requires t.groups > 0
  {
    GroupEnd(|t.leaf|, t.groups, g) <= i < GroupEnd(|t.leaf|, t.groups, g + 1)
  }

  lemma InGroupIs(t: Topology, g: nat, i: nat)
    requires t.leaf != [] && t.groups > 0
    ensures InGroup(t, g, i) <==> t.Group(i) == g
  {
    InFirstGroups(t, i, g);
    InFirstGroups(t, i, g + 1);
  }

  /**
   Where the group behind the first g starts: the last suffix holds the offset, so that more than doubles each time.
   */
  ghost function GroupStart(t: Topology, g: nat): int {
    (Pow2(g) - 1) * Span(t.QueryFor(V4, true, 0))
  }

  lemma NextGroupStart(t: Topology, g: nat)
    ensures GroupStart(t, 0) == 0
    ensures GroupStart(t, g + 1) == GroupStart(t, g) + (GroupStart(t, g) + Span(t.QueryFor(V4, true, 0)))
  {
    Doubled(Pow2(g) - 1, Span(t.QueryFor(V4, true, 0)));
  }

  lemma OffsetStep(t: Topology, k: nat)
    requires t.Regular() && k < |t.leaf| && t.leaf[k]
    ensures !t.Boundary(k) ==> Offset(t, k + 1) == Offset(t, k)
    ensures t.Boundary(k) ==> Offset(t, k + 1) == Offset(t, k) + (Offset(t, k) + Span(t.QueryFor(V4, true, 0)))
  {
    SuffixAfterIs(t, true, Offset(t, k));
  }

  lemma GroupOffsetStep(t: Topology, k: nat, g: nat, next: nat)
    requires t.Regular() && k < |t.leaf| && t.leaf[k] && Offset(t, k) == GroupStart(t, g)
    requires if t.Boundary(k) then next == g + 1 else next == g
    ensures Offset(t, k + 1) == GroupStart(t, next)
  {
    OffsetStep(t, k);
    NextGroupStart(t, g);
  }

  lemma {:induction false} GroupOffset(t: Topology, g: nat, i: nat)
    requires t.Regular() && i < |t.leaf| && 0 < t.groups <= |t.leaf| && forall k :: 0 <= k < |t.leaf| ==> t.leaf[k]
    requires t.Group(i) == g
    ensures Offset(t, i) == GroupStart(t, g)
    decreases i
  {
    if i == 0 {
      assert t.Group(0) == 0;
      NextGroupStart(t, 0);
    } else {
      var before := t.Group(i - 1);
      GroupOffset(t, before, i - 1);
      NextGroup(t, i - 1);
      GroupOffsetStep(t, i - 1, before, g);
    }
  }

  lemma Doubled(x: int, span: int)
    ensures x * span + (x * span + span) == (2 * (x + 1) - 1) * span
  {
  }

  /** With at least one VM for each group, the group number grows by one at most. */
  lemma NextGroup(t: Topology, i: nat)
    requires 0 < t.groups <= |t.leaf|
    ensures t.Group(i) <= t.Group(i + 1) <= t.Group(i) + 1
  {
    var n := |t.leaf|;
    GroupMonotone(t, i, i + 1);
    assert (i + 1) * t.groups == i * t.groups + t.groups;
    DivAdds(i * t.groups, t.groups, n);
    if t.groups < n { DivModUnique(t.groups, n, 0, t.groups); } else { OneMoreShare(i * t.groups, n); }
  }

  lemma OneMoreShare(x: nat, n: Positive)
    ensures (x + n) / n == x / n + 1
  {
    assert x + n == (x / n + 1) * n + x % n;
    DivModUnique(x + n, n, x / n + 1, x % n);
  }

  /**
   What the loop leaves for leaf VMs: VM i of the group behind the first g holds the routes that start at
   2^g - 1 times the length of one layout.
   */
  lemma FibRoutesExactly(t: Topology, g: nat, i: nat, start: nat)
    requires t.Regular() && i < |t.leaf| && 0 < t.groups <= |t.leaf| && forall k :: 0 <= k < |t.leaf| ==> t.leaf[k]
    requires InGroup(t, g, i) && start == (Pow2(g) - 1) * Span(t.QueryFor(V4, true, 0))
    ensures Rows(t, |t.leaf|)[i] == Announced(t, true, start)
  {
    RowAt(t, |t.leaf|, i);
    InGroupIs(t, g, i);
    GroupOffset(t, g, i);
  }

  /** With more groups than VMs every VM is a group of its own. */
  lemma {:induction false} LoneOffset(t: Topology, i: nat)
    requires t.Regular() && i < |t.leaf| <= t.groups && forall k :: 0 <= k < |t.leaf| ==> t.leaf[k]
    ensures Offset(t, i) == GroupStart(t, i)
  {
    if i == 0 {
      NextGroupStart(t, 0);
    } else {
      LoneOffset(t, i - 1);
      assert i * t.groups == (i - 1) * t.groups + t.groups;
      DivAdds((i - 1) * t.groups, t.groups, |t.leaf|);
      FloorBelow(t.groups, |t.leaf|, 1);
      GroupOffsetStep(t, i - 1, i - 1, i);
    }
  }

  lemma FibRoutesLone(t: Topology, i: nat, start: nat)
    requires t.Regular() && i < |t.leaf| <= t.groups && forall k :: 0 <= k < |t.leaf| ==> t.leaf[k]
    requires start == (Pow2(i) - 1) * Span(t.QueryFor(V4, true, 0))
    ensures Rows(t, |t.leaf|)[i] == Announced(t, true, start)
  {
    RowAt(t, |t.leaf|, i);
    LoneOffset(t, i);
  }

  /** Without groups all VMs start at offset 0. */
  lemma {:induction false} UngroupedOffset(t: Topology, i: nat)
    requires i < |t.leaf| && t.groups == 0
    ensures Offset(t, i) == 0
  {
    if i > 0 {
      UngroupedOffset(t, i - 1);
      NoGroups(t, i - 1);
    }
  }

  /** Routes apart as IPv4 blocks are also different IPv6 networks, as long as the octets are legal. */
  lemma ApartNetworksDiffer(size: nat, xs: seq<Route>, ys: seq<Route>, x: Route, y: Route)
    requires Apart(size, xs, ys) && x in xs && y in ys && IsNet(x) && IsNet(y)
    requires IsDottedQuad(x.addr) && IsDottedQuad(y.addr)
    ensures Value6(x.addr) != Value6(y.addr)
  {
    SameHalf(x.addr, y.addr);
  }

  lemma SameHalf(a: Octets, b: Octets)
    requires IsDottedQuad(a) && IsDottedQuad(b)
    ensures Value6(a) == Value6(b) ==> Value(a) == Value(b)
  {
    if Value6(a) == Value6(b) {
      assert a.o1 == b.o1 && a.o2 * 0x100 + a.o3 == b.o2 * 0x100 + b.o3 && a.o4 == b.o4;
    }
  }

  /**
   A tor VM at the end of a group leaves the offset where it was: two leaves of different groups then
   announce the same prefixes.
   */
  lemma TorAtGroupEndCollides()
    ensures var t := Topology(1, 2, 1, 1, 128, 0, 0, 0, "", "", true, true, false, [true, false, true, true], 2);
            t.Regular() && t.Group(0) != t.Group(2)
            && Announced(t, true, Offset(t, 0)) == Announced(t, true, Offset(t, 2))
  {
    var t := Topology(1, 2, 1, 1, 128, 0, 0, 0, "", "", true, true, false, [true, false, true, true], 2);
    assert t.Group(0) == t.Group(1) == 0 && t.Group(2) == 1;
    assert !LeafBoundary(t, 0, 2);
    OffsetGrows(t, 0, 2);
  }
}
