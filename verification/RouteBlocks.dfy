/** Announced IPv4 prefixes as the CIDR blocks that their prefix lengths denote (section 3.1 of RFC 4632). */
module RouteBlocks {
  import opened Common
  import opened Routes
  import opened RouteSpacing
  import opened M0Routes
  import opened M0Tiling
  import FibT0

  /** The size of a subnet is the size of a block of the IPv4 address space. */
  predicate BlockSize(q: Query) {
    PowerOfTwo(q.size) && FloorLog2(q.size) <= 32
  }

  /** The block of a prefix, as a router reads it. */
  function BlockOf(r: Route): Cidr
    requires r.Net4? && r.len >= 0
  {
    Cidr(Value(r.addr), r.len, 32)
  }

  ghost predicate BlockApart(x: Cidr, y: Cidr) {
    x.End() <= y.Start() || y.End() <= x.Start()
  }

  ghost predicate BlocksDisjoint(rs: seq<Route>) {
    && (forall i :: 0 <= i < |rs| && rs[i].Net4? ==> rs[i].len >= 0)
    && (forall i, j :: 0 <= i < j < |rs| && rs[i].Net4? && rs[j].Net4? ==> BlockApart(BlockOf(rs[i]), BlockOf(rs[j])))
  }

  lemma ClearBitsIs(a: nat, bits: nat)
    ensures ClearBits(a, bits) == a - a % Pow2(bits)
  {
    ClearBitsKeepsAligned(a, bits);
    ClearedAligned(a, bits);
    DivModUnique(a, Pow2(bits), ClearBits(a, bits) / Pow2(bits), a - ClearBits(a, bits));
  }

  lemma EqualRemainder(x: nat, y: nat, m: nat)
    requires m > 0 && (x - y) % m == 0
    ensures x % m == y % m
  {
    var d, k, r := (x - y) / m, y / m, y % m;
    assert x - y == d * m && y == k * m + r;
    assert (d + k) * m == d * m + k * m;
    DivModUnique(x, m, d + k, r);
  }

  /** The block of an address, with 2^bits addresses. */
  lemma BlockAround(a: nat, bits: nat)
    requires bits <= 32
    ensures Cidr(a, 32 - bits, 32).Size() == Pow2(bits) && Cidr(a, 32 - bits, 32).Start() == a - a % Pow2(bits)
  {
    ClearBitsIs(a, bits);
  }

  lemma NetAddress(q: Query, r: Route)
    requires r in Nets(q)
    ensures IsNet(r) && Value(r.addr) >= PRIVATE_BASE + q.offset
    ensures (Value(r.addr) - (PRIVATE_BASE + q.offset)) % q.size == 0
    ensures r.Net4? ==> r.len == 32 - FloorLog2(q.size)
  {
    var p, t, s := EmittedPosition(q, q.podsets, 0, 0, r);
    RoutesAtShape(q, p, t, s);
    NetLength(q, p, t, s, r);
    var x := Suffix(q, p, t, s);
    assert Value(r.addr) == PRIVATE_BASE + x;
    assert x >= q.offset by { SuffixPastOffset(q, p, t, s); }
    assert (x - q.offset) % q.size == 0 by { SuffixIsMultiple(q, p, t, s); }
    assert Value(r.addr) - (PRIVATE_BASE + q.offset) == x - q.offset;
  }

  lemma NetLength(q: Query, p: nat, t: nat, s: nat, r: Route)
    requires r in RoutesAt(q, p, t, s)
    ensures r.Net4? ==> r.len == 32 - FloorLog2(q.size)
  {
  }

  /** The block of an announced prefix has the subnet's size, and starts at the prefix if the offset is aligned. */
  lemma NetBlock(q: Query, r: Route)
    requires BlockSize(q) && r in Nets(q) && r.Net4?
    ensures r.len >= 0 && BlockOf(r).Size() == q.size
    ensures BlockOf(r).Start() == Value(r.addr) - (PRIVATE_BASE + q.offset) % q.size
  {
    NetAddress(q, r);
    var a, bits := Value(r.addr), FloorLog2(q.size);
    BlockAround(a, bits);
    EqualRemainder(a, PRIVATE_BASE + q.offset, q.size);
  }

  /** Two blocks of equally aligned calls are apart exactly when their prefixes are. */
  lemma BlocksClear(q: Query, u: Query, x: Route, y: Route)
    requires BlockSize(q) && u.size == q.size && u.offset % q.size == q.offset % q.size
    requires x in Nets(q) && y in Nets(u) && x.Net4? && y.Net4?
    ensures x.len >= 0 && y.len >= 0
    ensures BlockApart(BlockOf(x), BlockOf(y)) <==> Clear(q.size, x, y)
  {
    var shift := (PRIVATE_BASE + q.offset) % q.size;
    NetBlock(q, x);
    assert (PRIVATE_BASE + u.offset) % u.size == shift by { OffsetsAgree(q.offset, u.offset, q.size); }
    NetBlock(u, y);
    ShiftedClear(BlockOf(x), BlockOf(y), Value(x.addr), Value(y.addr), shift, q.size);
  }

  lemma ShiftedClear(x: Cidr, y: Cidr, a: nat, b: nat, shift: nat, size: nat)
    requires x.Start() == a - shift && y.Start() == b - shift && x.Size() == y.Size() == size
    ensures BlockApart(x, y) <==> a + size <= b || b + size <= a
  {
  }

  lemma OffsetsAgree(x: nat, y: nat, m: nat)
    requires m > 0 && x % m == y % m
    ensures (PRIVATE_BASE + x) % m == (PRIVATE_BASE + y) % m
  {
    if x >= y {
      Difference(x, y, m);
      EqualRemainder(PRIVATE_BASE + x, PRIVATE_BASE + y, m);
    } else {
      Difference(y, x, m);
      EqualRemainder(PRIVATE_BASE + y, PRIVATE_BASE + x, m);
    }
  }

  lemma Difference(x: nat, y: nat, m: nat)
    requires m > 0 && x % m == y % m
    ensures (x - y) % m == 0
  {
    assert x - y == (x / m - y / m) * m;
    MultipleMod(x / m - y / m, m);
  }

  /**
   The announced IPv4 blocks of one call are pairwise disjoint exactly when announced cells have room for their
   subnets.
   */
  lemma NetBlocksDisjoint(q: Query)
    requires BlockSize(q) && !q.family.V6?
    ensures BlocksDisjoint(Nets(q)) <==> Roomy(q)
  {
    forall i, j | 0 <= i < j < |Nets(q)| && Nets(q)[i].Net4? && Nets(q)[j].Net4?
      ensures Nets(q)[i].len >= 0 && Nets(q)[j].len >= 0
      ensures BlockApart(BlockOf(Nets(q)[i]), BlockOf(Nets(q)[j])) <==> Clear(q.size, Nets(q)[i], Nets(q)[j])
    {
      BlocksClear(q, q, Nets(q)[i], Nets(q)[j]);
    }
    forall i | 0 <= i < |Nets(q)| && Nets(q)[i].Net4? ensures Nets(q)[i].len >= 0 {
      NetBlock(q, Nets(q)[i]);
    }
    ApartIffRoomy(q);
    if Roomy(q) {
      NetsDisjoint(q);
    } else {
      var p: nat, t: nat, p': nat, t': nat :|
        Announces(q, p, t) && Announces(q, p', t') && Cell(q, p, t) < Cell(q, p', t')
        && q.subnets > (Cell(q, p', t') - Cell(q, p, t)) * q.maxSubnets;
      var i, j := NearCellsCollide(q, p, t, p', t');
      assert !Clear(q.size, Nets(q)[i], Nets(q)[j]);
    }
  }

  /** A block starts at its announced address exactly when the offset is a multiple of the size, up to sizes of 2^19. */
  lemma BlockStartsAtPrefix(q: Query, r: Route)
    requires BlockSize(q) && r in Nets(q) && r.Net4?
    ensures r.len >= 0 && (BlockOf(r).Start() == Value(r.addr) <==> (PRIVATE_BASE + q.offset) % q.size == 0)
    ensures FloorLog2(q.size) <= 19 ==> (BlockOf(r).Start() == Value(r.addr) <==> q.offset % q.size == 0)
  {
    NetBlock(q, r);
    if FloorLog2(q.size) <= 19 {
      BaseAlignment(FloorLog2(q.size));
      if q.offset % q.size == 0 { ModAdd(PRIVATE_BASE, q.offset, q.size); }
      if (PRIVATE_BASE + q.offset) % q.size == 0 { SameMultiple(PRIVATE_BASE, q.offset, q.size); }
    }
  }

  // ---- neighbour groups ----

  lemma {:induction false} GroupOffsetMultiple(t: FibT0.Topology, i: nat)
    requires t.Regular() && i <= |t.leaf|
    ensures FibT0.Offset(t, i) % t.size == 0
  {
    if i > 0 {
      GroupOffsetMultiple(t, i - 1);
      var before := FibT0.Offset(t, i - 1);
      FibT0.SuffixAfterIs(t, t.leaf[i - 1], before);
      SpanMultiple(t);
      ModAdd(before, before, t.size);
      ModAdd(before + before, FibT0.Span(t.QueryFor(V4, true, 0)), t.size);
    }
  }

  lemma SpanMultiple(t: FibT0.Topology)
    requires t.Regular()
    ensures FibT0.Span(t.QueryFor(V4, true, 0)) % t.size == 0
  {
    var q := t.QueryFor(V4, true, 0);
    FibT0.LeafFinal(q);
    SuffixIsMultiple(q, q.podsets - 1, q.tors - 1, q.subnets - 1);
  }

  /** No IPv4 block of the first list overlaps one of the second. */
  ghost predicate BlocksApart(xs: seq<Route>, ys: seq<Route>) {
    forall x, y :: x in xs && y in ys && x.Net4? && y.Net4? ==>
      x.len >= 0 && y.len >= 0 && BlockApart(BlockOf(x), BlockOf(y))
  }

  lemma LeafAnnouncesBlock(q: Query) returns (r: Route)
    requires FibT0.LeafQuery(q) && !q.family.V6? && BlockSize(q)
    ensures r in Nets(q) && r.Net4? && r.len >= 0
  {
    var p, t, s := q.podsets - 1, q.tors - 1, q.subnets - 1;
    r := RoutesAt(q, p, t, s)[0];
    assert r.Net4? && r in RoutesAt(q, p, t, s);
    PositionEmitted(q, q.podsets, 0, 0, p, t, s, r);
    NetBlock(q, r);
  }

  /**
   Two leaf VMs announce IPv4 blocks that do not overlap exactly when a leaf VM closes a group between them,
   whatever the prefix length.
   */
  lemma GroupBlocksDisjoint(t: FibT0.Topology, i: nat, j: nat)
    requires t.Regular() && i < j < |t.leaf| && t.leaf[i] && t.leaf[j]
    requires PowerOfTwo(t.size) && FloorLog2(t.size) <= 32
    ensures FibT0.LeafBoundary(t, i, j) <==>
            BlocksApart(Nets(t.QueryFor(V4, true, FibT0.Offset(t, i))), Nets(t.QueryFor(V4, true, FibT0.Offset(t, j))))
  {
    var q, u := t.QueryFor(V4, true, FibT0.Offset(t, i)), t.QueryFor(V4, true, FibT0.Offset(t, j));
    GroupOffsetMultiple(t, i);
    GroupOffsetMultiple(t, j);
    FibT0.LeavesApartIffLeafBoundary(t, V4, i, j);
    if FibT0.LeafBoundary(t, i, j) {
      forall x, y | x in Nets(q) && y in Nets(u) && x.Net4? && y.Net4?
        ensures x.len >= 0 && y.len >= 0 && BlockApart(BlockOf(x), BlockOf(y))
      {
        BlocksClear(q, u, x, y);
      }
    } else {
      FibT0.OffsetGrows(t, i, j);
      var r := LeafAnnouncesBlock(q);
      NetBlock(q, r);
      assert !BlockApart(BlockOf(r), BlockOf(r));
    }
  }
}
