/** The addresses a finished search leaves on the interfaces, and what they cost the pools. */
module P2pAddresses {
  import opened Common
  import opened Networks
  import opened P2pSearch
  import opened P2pInvariants
  import opened P2pTheorems

  /** No pool was asked for more children than it has: the run did not raise. */
  ghost predicate Fits(used: map<Network, nat>) {
    forall n :: Count(used, n) <= P2pCapacity(n)
  }

  ghost predicate DisjointPools(pool: map<Device, Network>) {
    && (forall n :: n in pool.Values ==> n.Valid())
    && (forall m, n :: m in pool.Values && n in pool.Values && m != n ==> !Overlap(m, n))
  }

  /** The ends that paid are exactly the ones that the order of visiting names. */
  lemma ChargedExactly(c: Testbed, e: End)
    requires c.WellFormed() && c.Involutive()
    ensures e in Outcome(c).charged <==> Pays(c, Outcome(c).visited, e)
  {
    OutcomeKeeps(c);
  }

  lemma OutcomeAddressed(c: Testbed)
    requires c.WellFormed() && c.Involutive()
    ensures Addressed(c, c.pool4, Outcome(c).used4, Outcome(c).ip4, Outcome(c).charged)
    ensures Addressed(c, c.pool6, Outcome(c).used6, Outcome(c).ip6, Outcome(c).charged)
  {
    OutcomeKeeps(c);
  }

  lemma OutcomeMirrored(c: Testbed)
    requires c.WellFormed() && c.Involutive()
    ensures Sides(c, Outcome(c)) && Mirrored(c, Outcome(c))
  {
    OutcomeKeeps(c);
  }

  /** The end of e's link that pays has a pool in this family. */
  ghost predicate LinkPaidFrom(c: Testbed, order: seq<Device>, pool: map<Device, Network>, e: End) {
    || (Pays(c, order, e) && e.dev in pool)
    || (c.Inside(e) && c.Member(e.dev) && Pays(c, order, c.peer[e]) && c.peer[e].dev in pool)
  }

  /** An interface has an address of a family exactly when the end that pays for its link has such a pool. */
  lemma AddressedExactly(c: Testbed, e: End)
    requires c.WellFormed() && c.Involutive()
    ensures e in Outcome(c).ip4 <==> LinkPaidFrom(c, Outcome(c).visited, c.pool4, e)
    ensures e in Outcome(c).ip6 <==> LinkPaidFrom(c, Outcome(c).visited, c.pool6, e)
  {
    OutcomeAddressed(c);
    ChargedExactly(c, e);
    if e in c.peer {
      ChargedExactly(c, c.peer[e]);
    }
  }

  /** A slot inside the capacity lies inside its pool, four addresses wide. */
  lemma SlotInside(a: Addr)
    requires a.pool.Valid() && a.slot < P2pCapacity(a.pool) && a.host < 4
    ensures a.pool.Contains(a.Ip())
    ensures a.Ip() == Subnet(a.pool, a.pool.width - 2, a.slot).base + a.host
    ensures Subnet(a.pool, a.pool.width - 2, a.slot).Contains(a.Ip())
  {
    assert Pow2(2) == 4;
    SubnetInside(a.pool, a.pool.width - 2, a.slot);
  }

  lemma SharedMeansOverlap(m: Network, n: Network, a: int)
    requires m.len <= m.width && n.len <= n.width && m.Contains(a) && n.Contains(a)
    ensures Overlap(m, n)
  {
  }

  /** The two four-address blocks have no address in common. */
  ghost predicate BlocksApart(a: Addr, b: Addr) {
    forall h, k :: 0 <= h < 4 && 0 <= k < 4 ==> a.(host := h).Ip() != b.(host := k).Ip()
  }

  /** Hosts 1 and 2 of one block aligned to four addresses. */
  ghost predicate HostPair(x: nat, y: nat) {
    (x % 4 == 1 && y == x + 1) || (y % 4 == 1 && x == y + 1)
  }

  /** Different children of disjoint pools share no address. */
  lemma ChildrenApart(a: Addr, b: Addr)
    requires a.pool.Valid() && a.slot < P2pCapacity(a.pool) && a.host < 4
    requires b.pool.Valid() && b.slot < P2pCapacity(b.pool) && b.host < 4
    requires a.pool != b.pool ==> !Overlap(a.pool, b.pool)
    requires a.pool != b.pool || a.slot != b.slot
    ensures a.Ip() != b.Ip()
  {
    SlotInside(a);
    SlotInside(b);
    if a.Ip() == b.Ip() {
      SharedMeansOverlap(a.pool, b.pool, a.Ip());
    }
  }

  ghost predicate Finished(c: Testbed, pool: map<Device, Network>, used: map<Network, nat>, ip: map<End, Addr>) {
    && DisjointPools(pool) && Fits(used)
    && exists charged :: Addressed(c, pool, used, ip, charged)
  }

  /** An address lies in a child that its pool has. */
  ghost predicate Placed(pool: map<Device, Network>, a: Addr) {
    a.pool in pool.Values && a.pool.Valid() && a.slot < P2pCapacity(a.pool) && a.host < 4
  }

  lemma AddressPlaced(c: Testbed, pool: map<Device, Network>, used: map<Network, nat>, ip: map<End, Addr>, e: End)
    requires Finished(c, pool, used, ip) && e in ip
    ensures Placed(pool, ip[e]) && Paired(c, ip, e)
  {
    var charged :| Addressed(c, pool, used, ip, charged);
    assert Paired(c, ip, e) by { assert AllPaired(c, ip); }
    assert ip[e].slot < Count(used, ip[e].pool) <= P2pCapacity(ip[e].pool) && ip[e].pool in pool.Values by {
      assert SlotsApart(c, pool, used, ip);
    }
  }

  lemma SameChildIsPeer(c: Testbed, pool: map<Device, Network>, used: map<Network, nat>, ip: map<End, Addr>, e: End,
                        g: End)
    requires Finished(c, pool, used, ip)
    requires e in ip && g in ip && SameChild(ip, e, g)
    ensures e in c.peer && (g == e || g == c.peer[e])
  {
    var charged :| Addressed(c, pool, used, ip, charged);
    assert SlotsApart(c, pool, used, ip);
  }

  /** Addresses of different children have blocks of their own. */
  lemma OtherChildApart(pool: map<Device, Network>, a: Addr, b: Addr)
    requires DisjointPools(pool) && Placed(pool, a) && Placed(pool, b)
    requires a.pool != b.pool || a.slot != b.slot
    ensures a.Ip() != b.Ip() && BlocksApart(a, b)
  {
    assert a.pool != b.pool ==> !Overlap(a.pool, b.pool);
    forall h, k | 0 <= h < 4 && 0 <= k < 4 ensures a.(host := h).Ip() != b.(host := k).Ip() {
      ChildrenApart(a.(host := h), b.(host := k));
    }
    ChildrenApart(a, b);
  }

  /** In one family: every addressed interface has an address of its own, in its link's own child subnet. */
  lemma FamilyDistinct(c: Testbed, pool: map<Device, Network>, used: map<Network, nat>, ip: map<End, Addr>, e: End,
                       g: End)
    requires Finished(c, pool, used, ip)
    requires e in ip && g in ip && e in c.peer && e != g
    ensures ip[e].Ip() != ip[g].Ip()
    ensures g != c.peer[e] ==> BlocksApart(ip[e], ip[g])
  {
    AddressPlaced(c, pool, used, ip, e);
    AddressPlaced(c, pool, used, ip, g);
    if SameChild(ip, e, g) {
      SameChildIsPeer(c, pool, used, ip, e, g);
    } else {
      OtherChildApart(pool, ip[e], ip[g]);
    }
  }

  lemma FamilyHostPair(c: Testbed, pool: map<Device, Network>, used: map<Network, nat>, ip: map<End, Addr>, e: End)
    requires Finished(c, pool, used, ip) && e in ip
    ensures e in c.peer && c.peer[e] in ip && HostPair(ip[e].Ip(), ip[c.peer[e]].Ip())
    ensures ip[e].pool.Contains(ip[e].Ip())
  {
    AddressPlaced(c, pool, used, ip, e);
    AddressPlaced(c, pool, used, ip, c.peer[e]);
    BlockAligned(ip[e]);
    BlockAligned(ip[c.peer[e]]);
  }

  lemma BlockAligned(a: Addr)
    requires a.pool.Valid() && a.slot < P2pCapacity(a.pool) && a.host < 4
    ensures a.pool.Contains(a.Ip()) && a.Ip() % 4 == a.host
  {
    SlotInside(a);
    assert a.pool.len + 2 <= a.pool.width;
    PoolAligned(a.pool.base, a.pool.width - a.pool.len);
    HostOfBlock(a.pool.base, a.slot, a.host);
  }

  lemma HostOfBlock(base: nat, slot: nat, host: nat)
    requires base % 4 == 0 && host < 4
    ensures (base + 4 * slot + host) % 4 == host
  {
  }

  lemma PoolAligned(base: nat, bits: nat)
    requires bits >= 2 && base % Pow2(bits) == 0
    ensures base % 4 == 0
  {
    Pow2Divides(2, bits);
    var size, four := Pow2(bits), Pow2(2);
    assert four == 4;
    DividesThrough(base, size, four);
  }

  lemma OutcomeFinished(c: Testbed)
    requires c.WellFormed() && c.Involutive()
    requires DisjointPools(c.pool4) && DisjointPools(c.pool6) && Fits(Outcome(c).used4) && Fits(Outcome(c).used6)
    ensures Finished(c, c.pool4, Outcome(c).used4, Outcome(c).ip4)
    ensures Finished(c, c.pool6, Outcome(c).used6, Outcome(c).ip6)
  {
    OutcomeAddressed(c);
  }

  /**
   After a run that did not exhaust a pool, the two ends of every addressed link hold hosts 1 and 2 of one
   aligned four-address block of the pool that paid.
   */
  lemma LinkEndsShareOneSubnet(c: Testbed, e: End)
    requires c.WellFormed() && c.Involutive()
    requires DisjointPools(c.pool4) && DisjointPools(c.pool6) && Fits(Outcome(c).used4) && Fits(Outcome(c).used6)
    ensures var ip := Outcome(c).ip4; e in ip ==>
              e in c.peer && c.peer[e] in ip && HostPair(ip[e].Ip(), ip[c.peer[e]].Ip())
              && ip[e].pool in c.pool4.Values && ip[e].pool.Contains(ip[e].Ip())
    ensures var ip := Outcome(c).ip6; e in ip ==>
              e in c.peer && c.peer[e] in ip && HostPair(ip[e].Ip(), ip[c.peer[e]].Ip())
              && ip[e].pool in c.pool6.Values && ip[e].pool.Contains(ip[e].Ip())
  {
    OutcomeFinished(c);
    var s := Outcome(c);
    if e in s.ip4 { FamilyHostPair(c, c.pool4, s.used4, s.ip4, e); }
    if e in s.ip6 { FamilyHostPair(c, c.pool6, s.used6, s.ip6, e); }
  }

  /**
   All interface addresses of a family are pairwise distinct and links do not share a block, although a
   snake link was addressed twice and overwritten.
   */
  lemma InterfaceAddressesDistinct(c: Testbed, e: End, g: End)
    requires c.WellFormed() && c.Involutive()
    requires DisjointPools(c.pool4) && DisjointPools(c.pool6) && Fits(Outcome(c).used4) && Fits(Outcome(c).used6)
    requires e != g && e in c.peer
    ensures var ip := Outcome(c).ip4; e in ip && g in ip ==>
              ip[e].Ip() != ip[g].Ip() && (g != c.peer[e] ==> BlocksApart(ip[e], ip[g]))
    ensures var ip := Outcome(c).ip6; e in ip && g in ip ==>
              ip[e].Ip() != ip[g].Ip() && (g != c.peer[e] ==> BlocksApart(ip[e], ip[g]))
  {
    OutcomeFinished(c);
    var s := Outcome(c);
    if e in s.ip4 && g in s.ip4 { FamilyDistinct(c, c.pool4, s.used4, s.ip4, e, g); }
    if e in s.ip6 && g in s.ip6 { FamilyDistinct(c, c.pool6, s.used6, s.ip6, e, g); }
  }

  // ---- conservation ----

  /** The snake-link ends of the visited devices. */
  ghost function SnakeEnds(c: Testbed, s: State): set<End> {
    set e | e in c.peer && e.dev in s.visited && c.Inside(e) && !c.Outward(e)
  }

  ghost function PickOne(ns: set<Network>): Network
    requires ns != {}
  {
    var n :| n in ns; n
  }

  /** All draws made from the given pools. */
  ghost function TotalDraws(used: map<Network, nat>, ns: set<Network>): nat {
    if ns == {} then 0
    else var n := PickOne(ns); Count(used, n) + TotalDraws(used, ns - {n})
  }

  lemma {:induction false} TotalDrawsCountsEnds(pool: map<Device, Network>, used: map<Network, nat>, charged: set<End>,
                                                ns: set<Network>)
    requires DrawsCounted(pool, used, charged)
    ensures TotalDraws(used, ns) == |set e | e in charged && e.dev in pool && pool[e.dev] in ns|
  {
    var paid := set e | e in charged && e.dev in pool && pool[e.dev] in ns;
    if ns == {} {
      assert paid == {};
    } else {
      var n := PickOne(ns);
      var rest := set e | e in charged && e.dev in pool && pool[e.dev] in ns - {n};
      TotalDrawsCountsEnds(pool, used, charged, ns - {n});
      assert paid == PaidFrom(pool, charged, n) + rest && PaidFrom(pool, charged, n) !! rest;
    }
  }

  /** Mapping every end to its peer is one-to-one. */
  lemma {:induction false} PeersKeepCount(c: Testbed, es: set<End>)
    requires forall e :: e in es ==> e in c.peer && c.peer[e] in c.peer && c.peer[c.peer[e]] == e
    ensures |set e | e in es :: c.peer[e]| == |es|
  {
    var image := set e | e in es :: c.peer[e];
    if es == {} {
      assert image == {};
    } else {
      var e :| e in es;
      PeersKeepCount(c, es - {e});
      var smaller := set g | g in es - {e} :: c.peer[g];
      assert forall g :: g in es - {e} ==> c.peer[c.peer[g]] != c.peer[c.peer[e]];
      assert c.peer[e] !in smaller;
      assert image == smaller + {c.peer[e]};
    }
  }

  ghost function OutwardPayers(c: Testbed, s: State): set<End> {
    set e | e in s.charged && c.Outward(e)
  }

  lemma PayerAndPeerRecorded(c: Testbed, s: State, e: End)
    requires c.Involutive() && Sides(c, s) && Mirrored(c, s)
    ensures e in OutwardPayers(c, s) ==>
              c.peer[e] in c.peer && c.peer[c.peer[e]] == e && c.peer[e] !in s.charged
              && e in s.sessions && c.peer[e] in s.sessions
    ensures e in s.sessions ==>
              e in OutwardPayers(c, s) || (c.peer[e] in OutwardPayers(c, s) && c.peer[c.peer[e]] == e)
  {
    if c.Outward(e) && c.Member(e.dev) {
      assert c.peer[c.peer[e]] == e;
    }
  }

  /** Each recorded link has two recorded ends, one of which paid. */
  lemma RecordedEndsAreTwicePaid(c: Testbed, s: State)
    requires c.Involutive() && Sides(c, s) && Mirrored(c, s)
    ensures |s.sessions.Keys| == 2 * |OutwardPayers(c, s)|
  {
    var payers, sessions := OutwardPayers(c, s), s.sessions.Keys;
    forall e: End
      ensures e in payers ==> c.peer[e] in c.peer && c.peer[c.peer[e]] == e && c.peer[e] !in payers
                              && e in sessions && c.peer[e] in sessions
      ensures e in sessions ==> e in payers || (e in c.peer && c.peer[e] in payers && c.peer[c.peer[e]] == e)
    {
      PayerAndPeerRecorded(c, s, e);
    }
    TwiceAsMany(c, payers, sessions);
  }

  lemma TwiceAsMany(c: Testbed, payers: set<End>, ends: set<End>)
    requires forall e :: e in payers ==> e in c.peer && c.peer[e] in c.peer && c.peer[c.peer[e]] == e
                                         && c.peer[e] !in payers && e in ends && c.peer[e] in ends
    requires forall e :: e in ends ==> e in payers || (e in c.peer && c.peer[e] in payers && c.peer[c.peer[e]] == e)
    ensures |ends| == 2 * |payers|
  {
    var others := set e | e in payers :: c.peer[e];
    PeersKeepCount(c, payers);
    assert ends == payers + others;
    assert payers !! others;
  }

  lemma OutcomeSnakes(c: Testbed)
    requires c.WellFormed() && c.Involutive()
    requires forall d :: c.Member(d) ==> d in c.pool4
    ensures Outcome(c).charged == OutwardPayers(c, Outcome(c)) + SnakeEnds(c, Outcome(c))
  {
    OutcomeMirrored(c);
    forall e: End ensures e in Outcome(c).charged <==> Pays(c, Outcome(c).visited, e) {
      ChargedExactly(c, e);
    }
    forall d | d in Outcome(c).visited ensures c.Member(d) {
      OutcomeKeeps(c);
    }
  }

  /** The ends whose devices own a pool among ns, and so all paying ends when every testbed device owns one. */
  lemma AllEndsPaid(pool: map<Device, Network>, charged: set<End>)
    requires forall e :: e in charged ==> e.dev in pool
    ensures charged == set e | e in charged && e.dev in pool && pool[e.dev] in pool.Values
  {
  }

  lemma RecordedIffVisited(c: Testbed, e: End)
    requires c.WellFormed() && c.Involutive()
    requires forall d :: c.Member(d) ==> d in c.pool4
    ensures e in Outcome(c).sessions <==> c.Outward(e) && e.dev in Outcome(c).visited
  {
    RecordsExactly(c, e);
    if e.dev in Outcome(c).visited { OutcomeKeeps(c); }
  }

  lemma AllDrawsCounted(c: Testbed)
    requires c.WellFormed() && c.Involutive()
    requires forall d :: c.Member(d) ==> d in c.pool4
    ensures TotalDraws(Outcome(c).used4, c.pool4.Values) == |Outcome(c).charged|
  {
    var s := Outcome(c);
    assert DrawsCounted(c.pool4, s.used4, s.charged) by { OutcomeAddressed(c); }
    assert forall e :: e in s.charged ==> e.dev in c.pool4 by { OutcomeMirrored(c); }
    TotalDrawsCountsEnds(c.pool4, s.used4, s.charged, c.pool4.Values);
    AllEndsPaid(c.pool4, s.charged);
  }

  /**
   Conservation: when every testbed device owns an IPv4 pool, the subnets drawn number the links between
   visited devices (two recorded ends each) plus one for each end of their snake links.
   */
  lemma DrawsConserved(c: Testbed)
    requires c.WellFormed() && c.Involutive()
    requires forall d :: c.Member(d) ==> d in c.pool4
    ensures 2 * TotalDraws(Outcome(c).used4, c.pool4.Values)
            == |Outcome(c).sessions.Keys| + 2 * |SnakeEnds(c, Outcome(c))|
    ensures forall e: End :: e in Outcome(c).sessions <==> c.Outward(e) && e.dev in Outcome(c).visited
  {
    forall e: End ensures e in Outcome(c).sessions <==> c.Outward(e) && e.dev in Outcome(c).visited {
      RecordedIffVisited(c, e);
    }
    AllDrawsCounted(c);
    assert |Outcome(c).sessions.Keys| == 2 * |OutwardPayers(c, Outcome(c))| by {
      OutcomeMirrored(c);
      RecordedEndsAreTwicePaid(c, Outcome(c));
    }
    OutcomeSnakes(c);
    assert OutwardPayers(c, Outcome(c)) !! SnakeEnds(c, Outcome(c));
  }

  lemma AllChargedExactly(c: Testbed)
    requires c.WellFormed() && c.Involutive()
    ensures forall e: End :: e in Outcome(c).charged <==> Pays(c, Outcome(c).visited, e)
  {
    forall e: End ensures e in Outcome(c).charged <==> Pays(c, Outcome(c).visited, e) {
      ChargedExactly(c, e);
    }
  }

  /** What each pool was charged: one child for every paying end whose device owns it. */
  lemma ChargesPerPool(c: Testbed, n: Network)
    requires c.WellFormed() && c.Involutive()
    ensures Count(Outcome(c).used4, n)
            == |set e | e in c.peer && Pays(c, Outcome(c).visited, e) && e.dev in c.pool4 && c.pool4[e.dev] == n|
    ensures Count(Outcome(c).used6, n)
            == |set e | e in c.peer && Pays(c, Outcome(c).visited, e) && e.dev in c.pool6 && c.pool6[e.dev] == n|
  {
    OutcomeAddressed(c);
    AllChargedExactly(c);
    PaidEnds(c, c.pool4, Outcome(c).visited, Outcome(c).charged, n);
    PaidEnds(c, c.pool6, Outcome(c).visited, Outcome(c).charged, n);
  }

  lemma PaidEnds(c: Testbed, pool: map<Device, Network>, order: seq<Device>, charged: set<End>, n: Network)
    requires forall e: End :: e in charged <==> Pays(c, order, e)
    ensures PaidFrom(pool, charged, n) == set e | e in c.peer && Pays(c, order, e) && e.dev in pool && pool[e.dev] == n
  {
  }
}
