/** What every step of the point-to-point address search keeps, and what holds when it ends. */
module P2pInvariants {
  import opened Common
  import opened Networks
  import opened P2pSearch

  // ---- the addresses of one family ----

  ghost predicate Paid(pool: map<Device, Network>, charged: set<End>, e: End) {
    e in charged && e.dev in pool
  }

  ghost function PaidFrom(pool: map<Device, Network>, charged: set<End>, n: Network): set<End> {
    set e | e in charged && e.dev in pool && pool[e.dev] == n
  }

  /** An addressed end and its peer hold hosts 1 and 2 of one child subnet. */
  ghost predicate Paired(c: Testbed, ip: map<End, Addr>, e: End)
    requires e in ip
  {
    && c.Inside(e) && c.Member(e.dev)
    && c.peer[e] in ip
    && ip[e].pool == ip[c.peer[e]].pool && ip[e].slot == ip[c.peer[e]].slot
    && (   (ip[e].host == 1 && ip[c.peer[e]].host == 2)
        || (ip[e].host == 2 && ip[c.peer[e]].host == 1))
  }

  ghost predicate SameChild(ip: map<End, Addr>, e: End, g: End)
    requires e in ip && g in ip
  {
    ip[e].pool == ip[g].pool && ip[e].slot == ip[g].slot
  }

  /** Addressed ends come in pairs. */
  ghost predicate AllPaired(c: Testbed, ip: map<End, Addr>) {
    forall e :: e in ip ==> Paired(c, ip, e)
  }

  /** Handed-out slots were drawn, and no two links share one. */
  ghost predicate SlotsApart(c: Testbed, pool: map<Device, Network>, used: map<Network, nat>, ip: map<End, Addr>) {
    && (forall e :: e in ip ==> ip[e].slot < Count(used, ip[e].pool) && ip[e].pool in pool.Values)
    && (forall e, g :: e in ip && g in ip && SameChild(ip, e, g) ==> e in c.peer && (g == e || g == c.peer[e]))
  }

  /** An end is addressed exactly when one of the two ends of its link paid from such a pool. */
  ghost predicate AddressedPaid(c: Testbed, pool: map<Device, Network>, ip: map<End, Addr>, charged: set<End>) {
    forall e: End :: e in ip <==>
      Paid(pool, charged, e) || (c.Inside(e) && c.Member(e.dev) && Paid(pool, charged, c.peer[e]))
  }

  ghost predicate DrawsCounted(pool: map<Device, Network>, used: map<Network, nat>, charged: set<End>) {
    forall n :: Count(used, n) == |PaidFrom(pool, charged, n)|
  }

  ghost predicate Addressed(c: Testbed, pool: map<Device, Network>, used: map<Network, nat>,
                            ip: map<End, Addr>, charged: set<End>) {
    && AllPaired(c, ip)
    && SlotsApart(c, pool, used, ip)
    && AddressedPaid(c, pool, ip, charged)
    && DrawsCounted(pool, used, charged)
  }

  lemma DrawCounts(pool: map<Device, Network>, used: map<Network, nat>, charged: set<End>, e: End)
    requires e !in charged && DrawsCounted(pool, used, charged)
    ensures DrawsCounted(pool, Draw(pool, used, e.dev), charged + {e})
  {
    forall n ensures Count(Draw(pool, used, e.dev), n) == |PaidFrom(pool, charged + {e}, n)| {
      if e.dev in pool && pool[e.dev] == n {
        assert PaidFrom(pool, charged + {e}, n) == PaidFrom(pool, charged, n) + {e};
      } else {
        assert PaidFrom(pool, charged + {e}, n) == PaidFrom(pool, charged, n);
      }
    }
  }

  lemma AssignPairs(c: Testbed, pool: map<Device, Network>, used: map<Network, nat>, ip: map<End, Addr>, e: End)
    requires c.Involutive() && c.Inside(e) && c.Member(e.dev) && AllPaired(c, ip)
    ensures AllPaired(c, Assign(pool, used, ip, e, c.peer[e]))
  {
    var ip' := Assign(pool, used, ip, e, c.peer[e]);
    forall g | g in ip' ensures Paired(c, ip', g) {
      if g != e && g != c.peer[e] {
        assert Paired(c, ip, g);
        assert c.peer[c.peer[g]] == g && c.peer[c.peer[e]] == e;
      }
    }
  }

  lemma AssignSeparates(c: Testbed, pool: map<Device, Network>, used: map<Network, nat>, ip: map<End, Addr>, e: End)
    requires e in c.peer && c.peer[e] in c.peer && c.peer[c.peer[e]] == e
    requires SlotsApart(c, pool, used, ip)
    ensures SlotsApart(c, pool, Draw(pool, used, e.dev), Assign(pool, used, ip, e, c.peer[e]))
  {
    var ip' := Assign(pool, used, ip, e, c.peer[e]);
    forall g, h | g in ip' && h in ip' && SameChild(ip', g, h)
      ensures g in c.peer && (h == g || h == c.peer[g])
    {
      if g != e && g != c.peer[e] && h != e && h != c.peer[e] {
        assert SameChild(ip, g, h);
      }
    }
  }

  lemma AssignDomain(c: Testbed, pool: map<Device, Network>, used: map<Network, nat>, ip: map<End, Addr>,
                     charged: set<End>, e: End)
    requires c.Involutive() && c.Inside(e) && c.Member(e.dev) && AddressedPaid(c, pool, ip, charged)
    ensures AddressedPaid(c, pool, Assign(pool, used, ip, e, c.peer[e]), charged + {e})
  {
    assert c.peer[c.peer[e]] == e;
  }

  /** Paying for an end that has not paid yet keeps the family's addresses sound, also on a snake link. */
  lemma AssignKeepsAddressed(c: Testbed, pool: map<Device, Network>, used: map<Network, nat>,
                             ip: map<End, Addr>, charged: set<End>, e: End)
    requires c.Involutive() && c.Inside(e) && c.Member(e.dev)
    requires Addressed(c, pool, used, ip, charged)
    requires e !in charged
    ensures Addressed(c, pool, Draw(pool, used, e.dev), Assign(pool, used, ip, e, c.peer[e]), charged + {e})
  {
    DrawCounts(pool, used, charged, e);
    AssignPairs(c, pool, used, ip, e);
    AssignSeparates(c, pool, used, ip, e);
    AssignDomain(c, pool, used, ip, charged, e);
  }

  // ---- the search ----

  /** The queue and the visited list know the devices behind the links that were met. */
  ghost predicate Queued(c: Testbed, s: State) {
    && s.error.None?
    && (forall e :: e in s.met ==> e in c.peer && e.dev in s.visited)
    && (forall e :: e in s.met && c.Inside(e) ==> c.peer[e].dev in s.visited || c.peer[e].dev in s.pending)
    && (forall d :: d in c.tgs ==> d in s.visited || d in s.pending)
    && (forall d :: d in s.pending ==> d in c.ports)
  }

  /** Interface rows exist for the links that were met from either end. */
  ghost predicate RowsMatch(c: Testbed, s: State) {
    forall e: End :: e in s.ifaces <==> c.Inside(e) && c.Member(e.dev) && (e in s.met || c.peer[e] in s.met)
  }

  ghost predicate LinksMet(c: Testbed, s: State) {
    Queued(c, s) && RowsMatch(c, s)
  }

  ghost predicate Sides(c: Testbed, s: State) {
    && (forall e :: e in s.charged ==> e in s.met && c.Inside(e) && c.Member(e.dev) && c.Pooled(e.dev))
    && (forall e :: e in s.charged && c.Outward(e) ==> c.peer[e] !in s.charged)
    && (forall e :: e in s.met && c.Inside(e) && c.Pooled(e.dev) ==>
          e in s.charged || (c.Outward(e) && c.peer[e] in s.charged))
  }

  /** The row that the addresses on the two interfaces of a link amount to. */
  function SessionAt(c: Testbed, ip4: map<End, Addr>, ip6: map<End, Addr>, e: End, f: End): Session
    requires f.dev in c.asn
  {
    Session(f, Lookup(ip4, e), Lookup(ip4, f), Lookup(ip6, e), Lookup(ip6, f), c.asn[f.dev])
  }

  /** The BGP table is closed under the link involution and mirrors addresses and ASNs. */
  ghost predicate Mirrored(c: Testbed, s: State) {
    && RecordedPaid(c, s.sessions, s.charged)
    && (forall e :: e in s.sessions ==>
        c.peer[e].dev in c.asn && s.sessions[e] == SessionAt(c, s.ip4, s.ip6, e, c.peer[e]))
  }

  ghost predicate Adjacent(sessions: map<End, Session>, a: Device, b: Device) {
    exists e :: e in sessions && e.dev == a && sessions[e].peer.dev == b
  }

  ghost predicate NeighboursMatch(sessions: map<End, Session>, neighbours: set<(Device, Device)>) {
    forall a, b :: (a, b) in neighbours <==> Adjacent(sessions, a, b)
  }

  ghost predicate Inv(c: Testbed, s: State)
    requires c.WellFormed()
  {
    && WorkList(c, s)
    && LinksMet(c, s)
    && Sides(c, s)
    && Mirrored(c, s)
    && Addressed(c, c.pool4, s.used4, s.ip4, s.charged)
    && Addressed(c, c.pool6, s.used6, s.ip6, s.charged)
    && NeighboursMatch(s.sessions, s.neighbours)
  }

  /** An end not met before, reached from the device being visited. */
  ghost predicate Fresh(c: Testbed, s: State, e: End) {
    e in c.peer && c.Member(e.dev) && e.dev in s.visited && e !in s.met
  }

  /** "Duplicate P2P link" cannot be raised: a recorded peer means a recorded near end. */
  lemma NeverDuplicate(c: Testbed, s: State, e: End)
    requires c.Involutive() && Mirrored(c, s) && c.Member(e.dev) && c.Inside(e)
    ensures c.peer[e] in s.sessions <==> e in s.sessions
  {
    assert c.peer[c.peer[e]] == e;
  }

  /** The step gives the link its addresses. */
  ghost predicate Opens(c: Testbed, s: State, e: End) {
    c.Inside(e) && e !in s.sessions
  }

  /** The error-free step, field by field. */
  ghost predicate Stepped(c: Testbed, s: State, e: End, r: State)
    requires e in c.peer && e.dev in c.asn
  {
    var f := c.peer[e];
    && r.met == s.met + {e} && r.visited == s.visited && r.error == s.error
    && (!Opens(c, s, e) ==> r == s.(met := s.met + {e}))
    && (Opens(c, s, e) ==>
          && r.ifaces == s.ifaces + {e, f}
          && r.ip4 == Assign(c.pool4, s.used4, s.ip4, e, f) && r.used4 == Draw(c.pool4, s.used4, e.dev)
          && r.ip6 == Assign(c.pool6, s.used6, s.ip6, e, f) && r.used6 == Draw(c.pool6, s.used6, e.dev)
          && r.charged == (if c.Pooled(e.dev) then s.charged + {e} else s.charged)
          && (f.dev == e.dev || !c.Pooled(e.dev) ==> r.sessions == s.sessions && r.neighbours == s.neighbours)
          && (f.dev != e.dev && c.Pooled(e.dev) ==>
                && f.dev in c.asn
                && r.sessions == s.sessions[e := NearRow(c, s, e, f)][f := FarRow(c, s, e, f)]
                && r.neighbours == s.neighbours + {(e.dev, f.dev), (f.dev, e.dev)})
          && r.pending == (if f.dev == e.dev || f.dev in s.visited || f.dev in s.pending then s.pending
                           else s.pending + [f.dev]))
  }

  /** The fields of an opened link. */
  lemma OpenFields(c: Testbed, m: State, e: End, f: End)
    requires e.dev in c.asn && f.dev in c.asn
    ensures var r := Open(c, m, e, f);
            && r.met == m.met && r.visited == m.visited && r.error == m.error
            && r.ifaces == m.ifaces + {e, f}
            && r.ip4 == Assign(c.pool4, m.used4, m.ip4, e, f) && r.used4 == Draw(c.pool4, m.used4, e.dev)
            && r.ip6 == Assign(c.pool6, m.used6, m.ip6, e, f) && r.used6 == Draw(c.pool6, m.used6, e.dev)
            && r.charged == (if c.Pooled(e.dev) then m.charged + {e} else m.charged)
    ensures var r := Open(c, m, e, f);
            if f.dev == e.dev || !c.Pooled(e.dev) then r.sessions == m.sessions && r.neighbours == m.neighbours
            else
              && r.sessions == m.sessions[e := NearRow(c, m, e, f)][f := FarRow(c, m, e, f)]
              && r.neighbours == m.neighbours + {(e.dev, f.dev), (f.dev, e.dev)}
    ensures Open(c, m, e, f).pending == if f.dev == e.dev || f.dev in m.visited || f.dev in m.pending then m.pending
                                        else m.pending + [f.dev]
  {
    assert m.neighbours + {} == m.neighbours;
    RecordLeaves(c, Address(c, m, e, f), e, f, NearRow(c, m, e, f), FarRow(c, m, e, f));
  }

  lemma VisitPortSteps(c: Testbed, s: State, e: End)
    requires c.WellFormed() && c.Member(e.dev) && e in c.peer && s.error.None?
    requires c.Inside(e) && c.peer[e] in s.sessions ==> e in s.sessions
    requires c.Inside(e) ==> c.peer[e].dev in c.ports
    ensures Stepped(c, s, e, VisitPort(c, s, e))
  {
    var f, m := c.peer[e], s.(met := s.met + {e});
    if Opens(c, s, e) {
      assert VisitPort(c, s, e) == Open(c, m, e, f);
      OpenFields(c, m, e, f);
      assert NearRow(c, m, e, f) == NearRow(c, s, e, f) && FarRow(c, m, e, f) == FarRow(c, s, e, f);
    } else {
      assert VisitPort(c, s, e) == m;
    }
  }

  predicate NewDevice(s: State, near: Device, far: Device) {
    far != near && far !in s.visited && far !in s.pending
  }

  /** What the step does to the sets and the queue, whatever the rows hold. */
  ghost predicate SteppedSets(c: Testbed, s: State, e: End, r: State)
    requires e in c.peer
  {
    var f, pays := c.peer[e], Opens(c, s, e) && c.Pooled(e.dev);
    && r.met == s.met + {e} && r.visited == s.visited && r.error == s.error
    && r.charged == s.charged + (if pays then {e} else {})
    && r.sessions.Keys == s.sessions.Keys + (if pays && f.dev != e.dev then {e, f} else {})
    && r.ifaces == s.ifaces + (if Opens(c, s, e) then {e, f} else {})
    && r.pending == s.pending + if Opens(c, s, e) && NewDevice(s, e.dev, f.dev) then [f.dev] else []
  }

  lemma SetsStep(c: Testbed, s: State, e: End, r: State)
    requires e in c.peer && e.dev in c.asn && Stepped(c, s, e, r)
    ensures SteppedSets(c, s, e, r)
  {
    var f := c.peer[e];
    assert s.pending + [] == s.pending && s.charged + {} == s.charged && s.ifaces + {} == s.ifaces;
    if Opens(c, s, e) && c.Pooled(e.dev) && f.dev != e.dev {
      assert r.sessions.Keys == s.sessions.Keys + {e, f};
    } else {
      assert r.sessions.Keys == s.sessions.Keys + {};
    }
  }

  lemma QueuedKept(c: Testbed, s: State, e: End, r: State)
    requires c.WellFormed() && c.Involutive() && Fresh(c, s, e) && SteppedSets(c, s, e, r) && Queued(c, s)
    requires e in s.sessions ==> c.Inside(e) && c.peer[e] in s.met
    ensures Queued(c, r)
  {
    var d := c.peer[e].dev;
    assert c.Inside(e) ==> d in c.ports;
    assert forall x :: x in r.pending <==> x in s.pending || (x in r.pending && x == d);
    assert c.Inside(e) ==> d in s.visited || d in r.pending;
  }

  lemma RowsMatchKept(c: Testbed, s: State, e: End, r: State)
    requires c.Involutive() && Fresh(c, s, e) && SteppedSets(c, s, e, r) && RowsMatch(c, s)
    requires e in s.sessions ==> c.Inside(e) && c.peer[e] in s.met
    ensures RowsMatch(c, r)
  {
    assert c.Inside(e) ==> c.peer[e] in c.peer && c.peer[c.peer[e]] == e;
  }

  lemma SidesKept(c: Testbed, s: State, e: End, r: State)
    requires c.Involutive() && Fresh(c, s, e) && SteppedSets(c, s, e, r) && Sides(c, s)
    requires e in s.sessions <==> c.Outward(e) && c.peer[e] in s.charged
    ensures Sides(c, r)
  {
    assert c.Inside(e) ==> c.peer[e] in c.peer && c.peer[c.peer[e]] == e;
  }

  ghost predicate RecordedPaid(c: Testbed, sessions: map<End, Session>, charged: set<End>) {
    forall e: End :: e in sessions <==>
      c.Outward(e) && c.Member(e.dev) && (e in charged || c.peer[e] in charged)
  }

  lemma RecordedPaidKept(c: Testbed, s: State, e: End, r: State)
    requires c.Involutive() && Fresh(c, s, e) && SteppedSets(c, s, e, r) && RecordedPaid(c, s.sessions, s.charged)
    ensures RecordedPaid(c, r.sessions, r.charged)
  {
    assert c.Inside(e) ==> c.peer[e] in c.peer && c.peer[c.peer[e]] == e;
  }

  lemma OtherRowKept(c: Testbed, s: State, e: End, r: State, g: End)
    requires e in c.peer && e.dev in c.asn && Stepped(c, s, e, r)
    requires g in r.sessions && g != e && g != c.peer[e]
    ensures g in s.sessions && r.sessions[g] == s.sessions[g]
  {
  }

  lemma RowMirrored(c: Testbed, s: State, g: End)
    requires c.Involutive() && Mirrored(c, s) && g in s.sessions
    ensures g in c.peer && c.peer[g] in c.peer && c.peer[c.peer[g]] == g
    ensures c.peer[g].dev in c.asn && s.sessions[g] == SessionAt(c, s.ip4, s.ip6, g, c.peer[g])
  {
  }

  /** Sessions of other links are untouched, and so are the addresses they carry. */
  lemma OtherSessionKept(c: Testbed, s: State, e: End, r: State, g: End)
    requires c.Involutive() && c.Inside(e) && c.Member(e.dev) && e.dev in c.asn && Stepped(c, s, e, r)
    requires Mirrored(c, s) && g in r.sessions && g != e && g != c.peer[e]
    ensures c.peer[g].dev in c.asn && r.sessions[g] == SessionAt(c, r.ip4, r.ip6, g, c.peer[g])
  {
    OtherRowKept(c, s, e, r, g);
    RowMirrored(c, s, g);
    assert c.peer[c.peer[e]] == e;
    SessionUntouched(c, s, e, r, g, c.peer[g]);
  }

  lemma SessionUntouched(c: Testbed, s: State, e: End, r: State, g: End, h: End)
    requires e in c.peer && e.dev in c.asn && Stepped(c, s, e, r) && h.dev in c.asn
    requires g != e && g != c.peer[e] && h != e && h != c.peer[e]
    ensures SessionAt(c, r.ip4, r.ip6, g, h) == SessionAt(c, s.ip4, s.ip6, g, h)
  {
  }

  /** Nothing is written yet where nobody paid for the link. */
  lemma UnpaidUnaddressed(c: Testbed, pool: map<Device, Network>, used: map<Network, nat>, ip: map<End, Addr>,
                          charged: set<End>, e: End)
    requires c.Involutive() && c.Inside(e) && c.Member(e.dev) && Addressed(c, pool, used, ip, charged)
    requires e !in charged && c.peer[e] !in charged
    ensures e !in ip && c.peer[e] !in ip
  {
    assert c.peer[c.peer[e]] == e;
  }

  /** What the draws put into the rows is what the interfaces then carry. */
  lemma DrawnIsAssigned(pool: map<Device, Network>, used: map<Network, nat>, ip: map<End, Addr>, e: End, f: End)
    requires e != f && (e.dev !in pool ==> e !in ip && f !in ip)
    ensures Lookup(Assign(pool, used, ip, e, f), e) == Drawn(pool, used, e.dev, 1)
    ensures Lookup(Assign(pool, used, ip, e, f), f) == Drawn(pool, used, e.dev, 2)
  {
  }

  lemma NewRowsKept(c: Testbed, s: State, e: End, r: State)
    requires c.Involutive() && c.Outward(e) && c.Member(e.dev) && c.Pooled(e.dev) && e.dev in c.asn && Opens(c, s, e)
    requires Stepped(c, s, e, r) && e !in s.charged && c.peer[e] !in s.charged
    requires Addressed(c, c.pool4, s.used4, s.ip4, s.charged) && Addressed(c, c.pool6, s.used6, s.ip6, s.charged)
    ensures var f := c.peer[e];
            && f.dev in c.asn && e in r.sessions && f in r.sessions
            && r.sessions[e] == SessionAt(c, r.ip4, r.ip6, e, f) && r.sessions[f] == SessionAt(c, r.ip4, r.ip6, f, e)
  {
    var f := c.peer[e];
    UnpaidUnaddressed(c, c.pool4, s.used4, s.ip4, s.charged, e);
    UnpaidUnaddressed(c, c.pool6, s.used6, s.ip6, s.charged, e);
    DrawnIsAssigned(c.pool4, s.used4, s.ip4, e, f);
    DrawnIsAssigned(c.pool6, s.used6, s.ip6, e, f);
  }

  lemma SessionKept(c: Testbed, s: State, e: End, r: State, g: End)
    requires g in c.peer && c.peer[g].dev in c.asn && e.dev in c.asn && e in c.peer && g in r.sessions
    requires c.Involutive() && Fresh(c, s, e) && Stepped(c, s, e, r) && Mirrored(c, s)
    requires Opens(c, s, e) && c.Outward(e) ==> e !in s.charged && c.peer[e] !in s.charged
    requires Addressed(c, c.pool4, s.used4, s.ip4, s.charged) && Addressed(c, c.pool6, s.used6, s.ip6, s.charged)
    ensures r.sessions[g] == SessionAt(c, r.ip4, r.ip6, g, c.peer[g])
  {
    if Opens(c, s, e) {
      assert c.peer[c.peer[e]] == e;
      if g != e && g != c.peer[e] {
        OtherSessionKept(c, s, e, r, g);
      } else if c.Outward(e) && c.Pooled(e.dev) {
        NewRowsKept(c, s, e, r);
      } else {
        NeverDuplicate(c, s, e);
        assert false;
      }
    } else {
      RowMirrored(c, s, g);
    }
  }

  lemma MirroredKept(c: Testbed, s: State, e: End, r: State)
    requires c.WellFormed() && c.Involutive() && Fresh(c, s, e) && Stepped(c, s, e, r)
    requires Mirrored(c, s)
    requires Opens(c, s, e) && c.Outward(e) ==> e !in s.charged && c.peer[e] !in s.charged
    requires Addressed(c, c.pool4, s.used4, s.ip4, s.charged) && Addressed(c, c.pool6, s.used6, s.ip6, s.charged)
    ensures Mirrored(c, r)
  {
    SetsStep(c, s, e, r);
    RecordedPaidKept(c, s, e, r);
    forall g | g in r.sessions
      ensures c.peer[g].dev in c.asn && r.sessions[g] == SessionAt(c, r.ip4, r.ip6, g, c.peer[g])
    {
      SessionKept(c, s, e, r, g);
    }
  }

  lemma NeighboursKept(c: Testbed, s: State, e: End, r: State)
    requires c.WellFormed() && Fresh(c, s, e) && Stepped(c, s, e, r)
    requires NeighboursMatch(s.sessions, s.neighbours)
    requires c.peer[e] in s.sessions ==> e in s.sessions
    ensures NeighboursMatch(r.sessions, r.neighbours)
  {
    var f := c.peer[e];
    if Opens(c, s, e) && f.dev != e.dev && c.Pooled(e.dev) {
      assert r.sessions[e].peer == f && r.sessions[f].peer == e;
      forall a, b ensures (a, b) in r.neighbours <==> Adjacent(r.sessions, a, b) {
        if Adjacent(s.sessions, a, b) {
          var g :| g in s.sessions && g.dev == a && s.sessions[g].peer.dev == b;
          assert g in r.sessions && r.sessions[g] == s.sessions[g];
        }
        if Adjacent(r.sessions, a, b) {
          var g :| g in r.sessions && g.dev == a && r.sessions[g].peer.dev == b;
          if g != e && g != f {
            assert g in s.sessions && r.sessions[g] == s.sessions[g];
          }
        }
      }
    } else {
      assert forall a, b :: Adjacent(r.sessions, a, b) <==> Adjacent(s.sessions, a, b);
    }
  }

  lemma AddressedKept(c: Testbed, s: State, e: End, r: State)
    requires c.WellFormed() && c.Involutive() && Fresh(c, s, e) && Stepped(c, s, e, r) && e !in s.charged
    requires Addressed(c, c.pool4, s.used4, s.ip4, s.charged) && Addressed(c, c.pool6, s.used6, s.ip6, s.charged)
    ensures Addressed(c, c.pool4, r.used4, r.ip4, r.charged)
    ensures Addressed(c, c.pool6, r.used6, r.ip6, r.charged)
  {
    if Opens(c, s, e) && c.Pooled(e.dev) {
      AssignKeepsAddressed(c, c.pool4, s.used4, s.ip4, s.charged, e);
      AssignKeepsAddressed(c, c.pool6, s.used6, s.ip6, s.charged, e);
    }
  }

  /** What a recorded near end says about a step that skips it. */
  lemma RecordedMeansPeerPaid(c: Testbed, s: State, e: End)
    requires Sides(c, s) && Mirrored(c, s) && Fresh(c, s, e)
    ensures e !in s.charged
    ensures e in s.sessions <==> c.Outward(e) && c.peer[e] in s.charged
    ensures e in s.sessions ==> c.peer[e] in s.met
  {
  }

  /** One pass through the inner loop body keeps the invariant. */
  lemma VisitPortKeeps(c: Testbed, s: State, e: End)
    requires c.WellFormed() && c.Involutive() && Inv(c, s) && Fresh(c, s, e)
    ensures Inv(c, VisitPort(c, s, e)) && Stepped(c, s, e, VisitPort(c, s, e))
  {
    if c.Inside(e) { NeverDuplicate(c, s, e); }
    var r := VisitPort(c, s, e);
    VisitPortSteps(c, s, e);
    VisitPortWorkList(c, s, e);
    RecordedMeansPeerPaid(c, s, e);
    SetsStep(c, s, e, r);
    QueuedKept(c, s, e, r);
    RowsMatchKept(c, s, e, r);
    SidesKept(c, s, e, r);
    MirroredKept(c, s, e, r);
    if !c.Inside(e) { assert !Opens(c, s, e); }
    NeighboursKept(c, s, e, r);
    AddressedKept(c, s, e, r);
  }
}
