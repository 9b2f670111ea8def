/** Exactly when the prefixes of one `generate_routes` call of ansible/library/announce_routes.py are disjoint. */
module RouteSpacing {
  import opened Common
  import opened Routes

  // ---- cells and slots ----

  /** The number of a (podset, tor) pair in the order of the loops. */
  function Cell(q: Query, podset: nat, tor: nat): nat {
    podset * q.tors + tor
  }

  /** Every cell reserves maxSubnets slots of one subnet each. */
  function Slot(q: Query, podset: nat, tor: nat, subnet: nat): nat {
    Cell(q, podset, tor) * q.maxSubnets + subnet
  }

  lemma SuffixOfSlot(q: Query, podset: nat, tor: nat, subnet: nat)
    ensures Suffix(q, podset, tor, subnet) == Slot(q, podset, tor, subnet) * q.size + q.offset
  {
    calc {
      Slot(q, podset, tor, subnet) * q.size;
      ((podset * q.tors + tor) * q.maxSubnets + subnet) * q.size;
      (podset * q.tors * q.maxSubnets + tor * q.maxSubnets + subnet) * q.size;
      podset * q.tors * q.maxSubnets * q.size + tor * q.maxSubnets * q.size + subnet * q.size;
    }
  }

  lemma LaterPodset(q: Query, p: nat, t: nat, p': nat, t': nat)
    requires t < q.tors && p < p'
    ensures Cell(q, p, t) < Cell(q, p', t')
  {
    MulMonotone(p + 1, p', q.tors);
  }

  /** The cell is announced. Only for tor routers of M0 does a subnet matter, the first one. */
  predicate Announces(q: Query, podset: nat, tor: nat) {
    podset < q.podsets && tor < q.tors && Included(q, podset, tor, 1)
  }

  lemma AnnouncedSubnets(q: Query, podset: nat, tor: nat, subnet: nat)
    requires podset < q.podsets && tor < q.tors
    ensures Included(q, podset, tor, subnet) ==> Announces(q, podset, tor)
    ensures Announces(q, podset, tor) && !q.router.Tor? ==> Included(q, podset, tor, subnet)
  {
  }

  lemma OneTor(q: Query, p: nat, t: nat, p': nat, t': nat)
    requires q.router.Tor? && Announces(q, p, t) && Announces(q, p', t')
    ensures Cell(q, p, t) == Cell(q, p', t')
  {
  }

  /** Any two announced cells are far enough apart for the subnets of the first. */
  ghost predicate CellsApart(q: Query) {
    forall p: nat, t: nat, p': nat, t': nat ::
      Announces(q, p, t) && Announces(q, p', t') && Cell(q, p, t) < Cell(q, p', t') ==>
        q.subnets <= (Cell(q, p', t') - Cell(q, p, t)) * q.maxSubnets
  }

  // ---- spaced lists ----

  /** Each prefix ends before the next one of the same family begins. */
  ghost predicate Spaced(size: nat, rs: seq<Route>) {
    && (forall i :: 0 <= i < |rs| ==> IsNet(rs[i]))
    && (forall i, j :: 0 <= i < j < |rs| && rs[i].Net4? == rs[j].Net4? ==>
          Value(rs[i].addr) + size <= Value(rs[j].addr))
  }

  ghost predicate Clear(size: nat, x: Route, y: Route)
    requires IsNet(x) && IsNet(y)
  {
    Value(x.addr) + size <= Value(y.addr) || Value(y.addr) + size <= Value(x.addr)
  }

  /** No two prefixes of one family overlap. */
  ghost predicate Disjoint(size: nat, rs: seq<Route>) {
    && (forall i :: 0 <= i < |rs| ==> IsNet(rs[i]))
    && (forall i, j :: 0 <= i < j < |rs| && rs[i].Net4? == rs[j].Net4? ==> Clear(size, rs[i], rs[j]))
  }

  lemma AppendSpaced(size: nat, rs: seq<Route>, more: seq<Route>, hi: nat)
    requires Spaced(size, rs) && forall r :: r in rs ==> IsNet(r) && Value(r.addr) + size <= hi
    requires |more| <= 2 && forall r :: r in more ==> IsNet(r) && Value(r.addr) == hi
    requires |more| == 2 ==> more[0].Net4? != more[1].Net4?
    ensures Spaced(size, rs + more)
  {
    var all := rs + more;
    assert forall i :: 0 <= i < |all| ==> all[i] in rs || all[i] in more;
    forall i, j | 0 <= i < j < |all| && all[i].Net4? == all[j].Net4?
      ensures Value(all[i].addr) + size <= Value(all[j].addr)
    {
      if j >= |rs| {
        assert all[j] in more;
        if i < |rs| { assert all[i] in rs; }
      }
    }
  }

  // ---- apart is enough ----

  lemma SlotsOrdered(k: nat, s: nat, k': nat, s': nat, subnets: nat, max: nat)
    requires s < subnets && (k == k' ==> s < s') && (k < k' ==> subnets <= (k' - k) * max) && k <= k'
    ensures k * max + s < k' * max + s'
  {
    assert (k' - k) * max == k' * max - k * max;
  }

  lemma EarlierSlot(q: Query, p: nat, t: nat, s: nat, p': nat, t': nat, s': nat)
    requires CellsApart(q) && Announces(q, p, t) && Announces(q, p', t') && s < q.subnets
    requires Earlier(p, t, s, p', t', s')
    ensures Slot(q, p, t, s) < Slot(q, p', t', s')
  {
    if p < p' { LaterPodset(q, p, t, p', t'); }
    SlotsOrdered(Cell(q, p, t), s, Cell(q, p', t'), s', q.subnets, q.maxSubnets);
  }

  lemma EndsBefore(x: nat, y: nat, size: nat)
    requires x < y
    ensures x * size + size <= y * size
  {
    MulMonotone(x + 1, y, size);
  }

  lemma EarlierEndsBefore(q: Query, p: nat, t: nat, s: nat, p': nat, t': nat, s': nat)
    requires CellsApart(q) && Announces(q, p, t) && Announces(q, p', t') && s < q.subnets
    requires Earlier(p, t, s, p', t', s')
    ensures Suffix(q, p, t, s) + q.size <= Suffix(q, p', t', s')
  {
    var x, y := Slot(q, p, t, s), Slot(q, p', t', s');
    assert x < y by { EarlierSlot(q, p, t, s, p', t', s'); }
    assert Suffix(q, p, t, s) == x * q.size + q.offset by { SuffixOfSlot(q, p, t, s); }
    assert Suffix(q, p', t', s') == y * q.size + q.offset by { SuffixOfSlot(q, p', t', s'); }
    EndsBefore(x, y, q.size);
  }

  lemma EmittedEndsBefore(q: Query, podset: nat, tor: nat, subnet: nat, r: Route)
    requires CellsApart(q) && tor < q.tors && subnet < q.subnets && podset < q.podsets && Announces(q, podset, tor)
    requires r in Emitted(q, podset, tor, subnet)
    ensures IsNet(r) && Value(r.addr) + q.size <= PRIVATE_BASE + Suffix(q, podset, tor, subnet)
  {
    var p, t, s := EmittedPosition(q, podset, tor, subnet, r);
    RoutesAtShape(q, p, t, s);
    AnnouncedSubnets(q, p, t, s);
    EarlierEndsBefore(q, p, t, s, podset, tor, subnet);
  }

  lemma {:induction false} EmittedSpaced(q: Query, podset: nat, tor: nat, subnet: nat)
    requires CellsApart(q) && podset <= q.podsets && tor <= q.tors && subnet <= q.subnets
    requires (tor > 0 || subnet > 0 ==> podset < q.podsets) && (subnet > 0 ==> tor < q.tors)
    ensures Spaced(q.size, Emitted(q, podset, tor, subnet))
    decreases podset, tor, subnet
  {
    if subnet > 0 {
      EmittedSpaced(q, podset, tor, subnet - 1);
      if Included(q, podset, tor, subnet - 1) {
        AnnouncedSubnets(q, podset, tor, subnet - 1);
        var before := Emitted(q, podset, tor, subnet - 1);
        forall r | r in before
          ensures IsNet(r) && Value(r.addr) + q.size <= PRIVATE_BASE + Suffix(q, podset, tor, subnet - 1)
        {
          EmittedEndsBefore(q, podset, tor, subnet - 1, r);
        }
        RoutesAtShape(q, podset, tor, subnet - 1);
        AppendSpaced(q.size, before, RoutesAt(q, podset, tor, subnet - 1),
            PRIVATE_BASE + Suffix(q, podset, tor, subnet - 1));
      }
    } else if tor > 0 {
      EmittedSpaced(q, podset, tor - 1, q.subnets);
    } else if podset > 0 {
      EmittedSpaced(q, podset - 1, q.tors, 0);
    }
  }

  // ---- and needed ----

  /** Routes of two included positions stand in the list in the order of the positions. */
  lemma PositionsInOrder(q: Query, p: nat, t: nat, s: nat, p': nat, t': nat, s': nat) returns (i: nat, j: nat)
    requires p' < q.podsets && t < q.tors && t' < q.tors && s < q.subnets && s' < q.subnets
    requires Included(q, p, t, s) && Included(q, p', t', s') && Earlier(p, t, s, p', t', s')
    ensures i < j < |Nets(q)| && Nets(q)[i] == RoutesAt(q, p, t, s)[0] && Nets(q)[j] == RoutesAt(q, p', t', s')[0]
  {
    EmittedPrefix(q, p, t, s + 1, p', t', s');
    EmittedPrefix(q, p', t', s' + 1, q.podsets, 0, 0);
    i, j := |Emitted(q, p, t, s)|, |Emitted(q, p', t', s')|;
    assert Emitted(q, p', t', s' + 1) == Emitted(q, p', t', s') + RoutesAt(q, p', t', s');
    assert Emitted(q, p, t, s + 1) == Emitted(q, p, t, s) + RoutesAt(q, p, t, s);
    assert Emitted(q, p', t', s' + 1)[j] == RoutesAt(q, p', t', s')[0];
    assert Emitted(q, p, t, s + 1)[i] == RoutesAt(q, p, t, s)[0];
  }

  /** Two cells that are too near announce one and the same prefix. */
  lemma NearCellsCollide(q: Query, p: nat, t: nat, p': nat, t': nat) returns (i: nat, j: nat)
    requires Announces(q, p, t) && Announces(q, p', t') && Cell(q, p, t) < Cell(q, p', t')
    requires q.subnets > (Cell(q, p', t') - Cell(q, p, t)) * q.maxSubnets
    ensures i < j < |Nets(q)| && IsNet(Nets(q)[i]) && IsNet(Nets(q)[j])
            && Nets(q)[i].Net4? == Nets(q)[j].Net4? == !q.family.V6?
    ensures Value(Nets(q)[i].addr) == Value(Nets(q)[j].addr)
  {
    if q.router.Tor? { OneTor(q, p, t, p', t'); }
    if p' < p { LaterPodset(q, p', t', p, t); }
    var d := (Cell(q, p', t') - Cell(q, p, t)) * q.maxSubnets;
    assert Slot(q, p, t, d) == Slot(q, p', t', 0) by {
      assert d == Cell(q, p', t') * q.maxSubnets - Cell(q, p, t) * q.maxSubnets;
    }
    SuffixOfSlot(q, p, t, d);
    SuffixOfSlot(q, p', t', 0);
    AnnouncedSubnets(q, p, t, d);
    AnnouncedSubnets(q, p', t', 0);
    i, j := PositionsInOrder(q, p, t, d, p', t', 0);
    RoutesAtShape(q, p, t, d);
    RoutesAtShape(q, p', t', 0);
    assert Nets(q)[i] in RoutesAt(q, p, t, d) && Nets(q)[j] in RoutesAt(q, p', t', 0);
  }

  lemma DisjointIffCellsApart(q: Query)
    ensures Spaced(q.size, Nets(q)) <==> CellsApart(q)
    ensures Disjoint(q.size, Nets(q)) <==> CellsApart(q)
  {
    if CellsApart(q) {
      EmittedSpaced(q, q.podsets, 0, 0);
    } else {
      var p: nat, t: nat, p': nat, t': nat :|
        Announces(q, p, t) && Announces(q, p', t') && Cell(q, p, t) < Cell(q, p', t')
        && q.subnets > (Cell(q, p', t') - Cell(q, p, t)) * q.maxSubnets;
      var i, j := NearCellsCollide(q, p, t, p', t');
      assert !Clear(q.size, Nets(q)[i], Nets(q)[j]);
    }
  }

  // ---- the condition for each router type ----

  function Min(a: nat, b: nat): nat {
    if a < b then a else b
  }

  /** Two announced cells stand next to each other. */
  predicate HasNeighbours(q: Query) {
    match q.router
    case Tor => false
    case Core => q.podsets > 3 && (q.podsets - 3) * q.tors >= 2
    case Spine => q.podsets > 1 && (q.podsets - 1) * q.tors >= 2
    case MgmtLeaf => q.podsets > 1 && (q.podsets - 1) * q.tors >= 2
    case Leaf =>
      match q.topo
      case M0 => q.podsets * q.tors >= 3
      case Plain => q.podsets * q.tors >= 3
      case T2 =>
        if q.setNum.None? then Min(q.podsets, 3) * q.tors >= 2
        else if q.setNum.value == 0 then q.podsets >= 1 && q.tors >= 2
        else if q.setNum.value == 1 then q.podsets >= 2 && (q.tors >= 2 || (q.podsets >= 3 && q.tors == 1))
        else q.podsets >= 3 && q.tors >= 2
      case T0Mclag =>
        if q.setNum.None? then Min(q.podsets, 2) * q.tors >= 2
        else q.setNum.value <= 1 && q.podsets > q.setNum.value && q.tors >= 2
  }

  /** Set 0 of T2 leaves with a single tor announces podsets 0 and 2 only. */
  predicate SkipsOne(q: Query) {
    q.router.Leaf? && q.topo.T2? && q.setNum == Some(0) && q.tors == 1 && q.podsets >= 3
  }

  /** The reserved slots hold the subnets, as far as the next announced cell. */
  predicate Roomy(q: Query) {
    q.subnets <= q.maxSubnets || (!HasNeighbours(q) && (SkipsOne(q) ==> q.subnets <= 2 * q.maxSubnets))
  }

  /** The least distance of announced cells decides. */
  lemma LeastDistanceDecides(q: Query, d: nat, p: nat, t: nat, p': nat, t': nat)
    requires Announces(q, p, t) && Announces(q, p', t') && Cell(q, p', t') == Cell(q, p, t) + d && d > 0
    requires forall a: nat, b: nat, a': nat, b': nat ::
               Announces(q, a, b) && Announces(q, a', b') && Cell(q, a, b) < Cell(q, a', b') ==>
                   Cell(q, a', b') >= Cell(q, a, b) + d
    ensures CellsApart(q) <==> q.subnets <= d * q.maxSubnets
  {
    if q.subnets <= d * q.maxSubnets {
      forall a: nat, b: nat, a': nat, b': nat |
        Announces(q, a, b) && Announces(q, a', b') && Cell(q, a, b) < Cell(q, a', b')
        ensures q.subnets <= (Cell(q, a', b') - Cell(q, a, b)) * q.maxSubnets
      {
        MulMonotone(d, Cell(q, a', b') - Cell(q, a, b), q.maxSubnets);
      }
    }
  }

  /** A podset that every router type but the tor announces if it has neighbouring cells. */
  function SomePodset(q: Query): nat {
    match q.router
    case Tor => 0
    case Core => if q.podsets == 0 then 0 else q.podsets - 1
    case Spine => 1
    case MgmtLeaf => 1
    case Leaf =>
      if q.topo.M0? || q.topo.Plain? then 1
      else if q.setNum.None? then 0
      else if q.setNum.value <= 1 then q.setNum.value
      else 2
  }

  lemma Several(q: Query, n: nat, m: nat)
    requires n * q.tors >= m && m > 0
    ensures q.tors > 0 && (q.tors == 1 ==> n >= m) && (q.tors == 2 ==> 2 * n >= m) && n > 0
  {
  }

  lemma SeveralCells(q: Query)
    requires HasNeighbours(q)
    ensures q.tors > 0 && (SomePodset(q) < q.podsets || (q.router.Leaf? && (q.topo.M0? || q.topo.Plain?)))
    ensures q.router.Core? ==> q.podsets > 3 && (q.tors == 1 ==> q.podsets >= 5)
    ensures q.router.Spine? || q.router.MgmtLeaf? ==> q.podsets >= 2 && (q.tors == 1 ==> q.podsets >= 3)
    ensures q.router.Leaf? && (q.topo.M0? || q.topo.Plain?) ==>
              q.podsets >= 1 && (q.tors == 1 ==> q.podsets >= 3) && (q.tors == 2 ==> q.podsets >= 2)
    ensures q.router.Leaf? && q.topo.T2? && q.tors == 1 ==>
              q.podsets >= 2 && (q.setNum.None? || (q.setNum == Some(1) && q.podsets >= 3))
    ensures q.router.Leaf? && q.topo.T0Mclag? && q.tors == 1 ==> q.podsets >= 2 && q.setNum.None?
  {
    match q.router
    case Tor =>
    case Core => Several(q, q.podsets - 3, 2);
    case Spine => Several(q, q.podsets - 1, 2);
    case MgmtLeaf => Several(q, q.podsets - 1, 2);
    case Leaf =>
      match q.topo
      case M0 => Several(q, q.podsets, 3);
      case Plain => Several(q, q.podsets, 3);
      case T2 => if q.setNum.None? { Several(q, Min(q.podsets, 3), 2); }
      case T0Mclag => if q.setNum.None? { Several(q, Min(q.podsets, 2), 2); }
  }

  lemma NeighbouringCells(q: Query) returns (p: nat, t: nat, p': nat, t': nat)
    requires HasNeighbours(q)
    ensures Announces(q, p, t) && Announces(q, p', t') && Cell(q, p', t') == Cell(q, p, t) + 1
  {
    SeveralCells(q);
    var plain := q.router.Leaf? && (q.topo.M0? || q.topo.Plain?);
    if plain && q.tors >= 3 {
      p, t, p', t' := 0, 1, 0, 2;
    } else if plain && q.tors == 2 {
      p, t, p', t' := 0, 1, 1, 0;
    } else if q.tors >= 2 {
      p, t, p', t' := SomePodset(q), 0, SomePodset(q), 1;
    } else {
      p := if q.router.Core? then q.podsets - 2 else if q.router.Leaf? && !plain && q.setNum.None? then 0 else 1;
      t, p', t' := 0, p + 1, 0;
    }
  }

  lemma CellInRange(q: Query, p: nat, t: nat)
    requires p < q.podsets && t < q.tors
    ensures Cell(q, p, t) < q.podsets * q.tors
  {
    MulMonotone(p + 1, q.podsets, q.tors);
  }

  lemma FewPodsets(q: Query, n: nat)
    requires n * q.tors < 2 && q.tors > 0
    ensures n <= 1 && (q.tors > 1 ==> n == 0)
  {
    if n >= 1 { MulMonotone(1, n, q.tors); }
    if n >= 2 { MulMonotone(2, n, q.tors); }
  }

  /** Without neighbouring cells at most one cell is announced, but for the set that skips a podset. */
  lemma LoneCells(q: Query, p: nat, t: nat, p': nat, t': nat)
    requires !HasNeighbours(q) && Announces(q, p, t) && Announces(q, p', t') && Cell(q, p, t) < Cell(q, p', t')
    ensures SkipsOne(q) && Cell(q, p', t') == Cell(q, p, t) + 2
  {
    if p' < p { LaterPodset(q, p', t', p, t); }
    CellInRange(q, p', t');
    match q.router
    case Tor => OneTor(q, p, t, p', t');
    case Core => FewPodsets(q, q.podsets - 3);
    case Spine => FewPodsets(q, q.podsets - 1);
    case MgmtLeaf => FewPodsets(q, q.podsets - 1);
    case Leaf =>
      if q.topo.T2? && q.setNum.None? {
        FewPodsets(q, Min(q.podsets, 3));
      } else if q.topo.T0Mclag? && q.setNum.None? {
        FewPodsets(q, Min(q.podsets, 2));
      } else if q.topo.M0? || q.topo.Plain? {
        LaterCell(q, p, t);
      }
  }

  lemma LaterCell(q: Query, p: nat, t: nat)
    requires q.tors > 0 && (p > 0 || t > 0)
    ensures Cell(q, p, t) >= 1
  {
    if p > 0 { MulMonotone(1, p, q.tors); }
  }

  lemma ApartIffRoomy(q: Query)
    ensures CellsApart(q) <==> Roomy(q)
  {
    if HasNeighbours(q) {
      var p, t, p', t' := NeighbouringCells(q);
      LeastDistanceDecides(q, 1, p, t, p', t');
    } else {
      forall a: nat, b: nat, a': nat, b': nat |
        Announces(q, a, b) && Announces(q, a', b') && Cell(q, a, b) < Cell(q, a', b')
        ensures SkipsOne(q) && Cell(q, a', b') == Cell(q, a, b) + 2
      {
        LoneCells(q, a, b, a', b');
      }
      if SkipsOne(q) {
        assert Announces(q, 0, 0) && Announces(q, 2, 0) && Cell(q, 2, 0) == Cell(q, 0, 0) + 2;
        LeastDistanceDecides(q, 2, 0, 0, 2, 0);
      }
    }
  }

  // ---- the promises ----

  /**
   The prefixes of one call are pairwise disjoint, and then also ascending, exactly when each announced cell has
   room for its subnets up to the next announced one.
   */
  lemma NetsDisjoint(q: Query)
    ensures Disjoint(q.size, Nets(q)) <==> Roomy(q)
    ensures Spaced(q.size, Nets(q)) <==> Roomy(q)
  {
    DisjointIffCellsApart(q);
    ApartIffRoomy(q);
  }

  /** No prefix lies before the offset. */
  lemma NetsPastOffset(q: Query, r: Route)
    requires r in Nets(q)
    ensures IsNet(r) && PRIVATE_BASE + q.offset <= Value(r.addr)
  {
    var p, t, s := EmittedPosition(q, q.podsets, 0, 0, r);
    RoutesAtShape(q, p, t, s);
    SuffixPastOffset(q, p, t, s);
  }

  /**
   For leaves outside T2 and MCLAG: more subnets than reserved collide as soon as two cells beside the DUT's exist.
   */
  lemma CrowdedTorsCollide(q: Query)
    requires q.router.Leaf? && (q.topo.Plain? || q.topo.M0?)
    ensures Disjoint(q.size, Nets(q)) <==> q.subnets <= q.maxSubnets || q.podsets * q.tors <= 2
  {
    NetsDisjoint(q);
  }
}
