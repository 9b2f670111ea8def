/** Whole-run properties of the point-to-point address search. */
module P2pTheorems {
  import opened Common
  import opened Networks
  import opened P2pSearch
  import opened P2pInvariants

  // ---- which end of a link pays ----

  /** a stands before b in the order of visiting. */
  ghost predicate Before(order: seq<Device>, a: Device, b: Device) {
    exists i, j :: 0 <= i < j < |order| && order[i] == a && order[j] == b
  }

  /**
   The end whose pools pay for a link: of the two ends with a pool, the one whose device is visited
   first; on a snake link each of the two ends.
   */
  ghost predicate Pays(c: Testbed, order: seq<Device>, e: End) {
    && c.Inside(e) && e.dev in order && c.Pooled(e.dev)
    && !(c.Outward(e) && c.Pooled(c.peer[e].dev) && Before(order, c.peer[e].dev, e.dev))
  }

  ghost predicate PaidFirst(c: Testbed, s: State) {
    forall e :: e in s.met ==> (e in s.charged <==> Pays(c, s.visited, e))
  }

  ghost predicate MetExcept(c: Testbed, s: State, d: Device) {
    forall e: End :: e in c.peer && e.dev in s.visited && e.dev != d ==> e in s.met
  }

  ghost predicate LastVisited(s: State, d: Device) {
    s.visited != [] && s.visited[|s.visited| - 1] == d
  }

  lemma BeforeLast(order: seq<Device>, a: Device)
    requires order != [] && Distinct(order)
    ensures var d := order[|order| - 1]; Before(order, a, d) <==> a in order && a != d
  {
    if a in order && a != order[|order| - 1] {
      var i :| 0 <= i < |order| && order[i] == a;
      assert 0 <= i < |order| - 1 && order[|order| - 1] == order[|order| - 1];
    }
  }

  lemma PaidFirstKept(c: Testbed, s: State, e: End, r: State)
    requires c.Involutive() && Fresh(c, s, e) && SteppedSets(c, s, e, r)
    requires Sides(c, s) && RecordedPaid(c, s.sessions, s.charged) && PaidFirst(c, s)
    requires Distinct(s.visited) && LastVisited(s, e.dev) && MetExcept(c, s, e.dev)
    requires forall g :: g in s.met ==> g.dev in s.visited
    ensures PaidFirst(c, r)
  {
    NewEndPaysFirst(c, s, e, r);
    OldEndsStay(c, s, e, r);
  }

  lemma OldEndsStay(c: Testbed, s: State, e: End, r: State)
    requires e in c.peer && e !in s.met && SteppedSets(c, s, e, r) && PaidFirst(c, s)
    ensures forall g :: g in s.met ==> (g in r.charged <==> Pays(c, r.visited, g))
  {
    assert forall g :: g in s.met ==> (g in r.charged <==> g in s.charged);
  }

  lemma NewEndPaysFirst(c: Testbed, s: State, e: End, r: State)
    requires c.Involutive() && Fresh(c, s, e) && SteppedSets(c, s, e, r)
    requires Sides(c, s) && RecordedPaid(c, s.sessions, s.charged)
    requires Distinct(s.visited) && LastVisited(s, e.dev) && MetExcept(c, s, e.dev)
    requires forall g :: g in s.met ==> g.dev in s.visited
    ensures e in r.charged <==> Pays(c, r.visited, e)
  {
    assert e !in s.charged;
    if c.Inside(e) {
      BeforeLast(s.visited, c.peer[e].dev);
      PeerDecides(c, s, e);
    }
  }

  lemma VisitedDistinct(c: Testbed, s: State)
    requires WorkList(c, s)
    ensures Distinct(s.visited)
  {
    forall i, j | 0 <= i < j < |s.visited| ensures s.visited[i] != s.visited[j] {
      assert (s.visited + s.pending)[i] == s.visited[i] && (s.visited + s.pending)[j] == s.visited[j];
    }
  }

  /** A link met from its pooled, already visited far end was paid for there. */
  lemma PeerDecides(c: Testbed, s: State, e: End)
    requires c.Involutive() && Sides(c, s) && RecordedPaid(c, s.sessions, s.charged) && Fresh(c, s, e) && c.Inside(e)
    requires MetExcept(c, s, e.dev) && forall g :: g in s.met ==> g.dev in s.visited
    ensures e in s.sessions <==> c.Outward(e) && c.peer[e].dev in s.visited && c.Pooled(c.peer[e].dev)
  {
    assert c.peer[c.peer[e]] == e && e !in s.charged;
  }

  // ---- the loops ----

  ghost predicate Between(c: Testbed, s: State)
    requires c.WellFormed()
  {
    Inv(c, s) && PaidFirst(c, s) && AllMet(c, s)
  }

  lemma {:induction false} VisitPortsKeeps(c: Testbed, s: State, d: Device, ports: seq<Port>)
    requires c.WellFormed() && c.Involutive() && c.Member(d)
    requires forall p :: p in ports ==> End(d, p) in c.peer && Fresh(c, s, End(d, p))
    requires Distinct(ports)
    requires Inv(c, s) && PaidFirst(c, s) && LastVisited(s, d) && MetExcept(c, s, d)
    ensures var r := VisitPorts(c, s, d, ports);
            && Inv(c, r) && PaidFirst(c, r) && MetExcept(c, r, d) && r.visited == s.visited
            && s.met <= r.met && forall p :: p in ports ==> End(d, p) in r.met
    decreases |ports|
  {
    if ports == [] {
    } else {
      var r := VisitPort(c, s, End(d, ports[0]));
      assert ports[0] in ports;
      StepKeeps(c, s, End(d, ports[0]));
      RestReady(c, s, r, d, ports);
      VisitPortsKeeps(c, r, d, ports[1..]);
    }
  }

  /** What the later ports need of the state behind the first one. */
  lemma RestReady(c: Testbed, s: State, r: State, d: Device, ports: seq<Port>)
    requires ports != [] && Distinct(ports) && forall p :: p in ports ==> Fresh(c, s, End(d, p))
    requires r.visited == s.visited && r.met == s.met + {End(d, ports[0])}
    requires LastVisited(s, d) && MetExcept(c, s, d)
    ensures LastVisited(r, d) && MetExcept(c, r, d)
    ensures forall p :: p in ports[1..] ==> Fresh(c, r, End(d, p))
  {
    forall p | p in ports[1..] ensures Fresh(c, r, End(d, p)) {
      assert p in ports && p != ports[0];
    }
  }

  /** One step, with the rule of payers. */
  lemma StepKeeps(c: Testbed, s: State, e: End)
    requires c.WellFormed() && c.Involutive() && Fresh(c, s, e)
    requires Inv(c, s) && PaidFirst(c, s) && LastVisited(s, e.dev) && MetExcept(c, s, e.dev)
    ensures var r := VisitPort(c, s, e);
            Inv(c, r) && PaidFirst(c, r) && r.visited == s.visited && r.met == s.met + {e}
  {
    VisitPortKeeps(c, s, e);
    VisitedDistinct(c, s);
    SetsStep(c, s, e, VisitPort(c, s, e));
    PaidFirstKept(c, s, e, VisitPort(c, s, e));
  }

  lemma PopPaidFirst(c: Testbed, s: State)
    requires WorkList(c, s) && PaidFirst(c, s) && s.pending != []
    requires forall e :: e in s.met ==> e.dev in s.visited
    ensures PaidFirst(c, Pop(s))
  {
    PopWorkList(c, s);
    forall e | e in s.met ensures Pays(c, Pop(s).visited, e) <==> Pays(c, s.visited, e) {
      if c.Inside(e) {
        BeforeExtends(s.visited, s.pending[0], c.peer[e].dev, e.dev);
      }
    }
  }

  lemma PopLinksMet(c: Testbed, s: State)
    requires LinksMet(c, s) && s.pending != []
    ensures LinksMet(c, Pop(s))
  {
    assert forall d :: d in s.pending <==> d == s.pending[0] || d in s.pending[1..];
  }

  lemma PopKeeps(c: Testbed, s: State)
    requires c.WellFormed() && Between(c, s) && s.pending != []
    ensures Inv(c, Pop(s)) && PaidFirst(c, Pop(s)) && MetExcept(c, Pop(s), s.pending[0])
  {
    PopWorkList(c, s);
    PopPaidFirst(c, s);
    PopLinksMet(c, s);
  }

  lemma BeforeExtends(order: seq<Device>, d: Device, a: Device, b: Device)
    requires d !in order && b in order
    ensures Before(order + [d], a, b) <==> Before(order, a, b)
  {
    var longer := order + [d];
    if Before(order, a, b) {
      var i, j :| 0 <= i < j < |order| && order[i] == a && order[j] == b;
      assert longer[i] == a && longer[j] == b;
    }
    if Before(longer, a, b) {
      var i, j :| 0 <= i < j < |longer| && longer[i] == a && longer[j] == b;
      assert j < |order|;
      assert order[i] == a && order[j] == b;
    }
  }

  lemma VisitDeviceKeeps(c: Testbed, s: State)
    requires c.WellFormed() && c.Involutive() && Between(c, s) && s.pending != []
    ensures c.Member(s.pending[0]) && Between(c, VisitDevice(c, s))
  {
    PopWorkList(c, s);
    PopKeeps(c, s);
    var d := s.pending[0];
    assert d in c.ports;
    forall p | p in c.ports[d] ensures Fresh(c, Pop(s), End(d, p)) {
    }
    VisitPortsKeeps(c, Pop(s), d, c.ports[d]);
  }

  lemma {:induction false} SearchKeeps(c: Testbed, s: State)
    requires c.WellFormed() && c.Involutive() && Between(c, s)
    ensures Between(c, Search(c, s)) && Search(c, s).pending == []
    decreases c.Members() - Elems(s.visited)
  {
    if s.pending == [] {
    } else {
      VisitDeviceWorkList(c, s);
      assert s.pending[0] in c.Members() - Elems(s.visited);
      VisitDeviceKeeps(c, s);
      SearchKeeps(c, VisitDevice(c, s));
    }
  }

  lemma InitAddressed(c: Testbed, pool: map<Device, Network>)
    ensures Addressed(c, pool, map[], map[], {})
  {
    assert forall n :: PaidFrom(pool, {}, n) == {};
  }

  lemma InitBetween(c: Testbed)
    requires c.WellFormed() && c.Involutive()
    ensures Between(c, Init(c))
  {
    InitWorkList(c);
    InitAddressed(c, c.pool4);
    InitAddressed(c, c.pool6);
    InitSearch(c);
  }

  lemma InitSearch(c: Testbed)
    requires c.Involutive()
    ensures LinksMet(c, Init(c)) && Sides(c, Init(c)) && Mirrored(c, Init(c)) && PaidFirst(c, Init(c))
            && AllMet(c, Init(c))
    ensures NeighboursMatch(Init(c).sessions, Init(c).neighbours)
  {
    assert forall a, b :: !Adjacent(map[], a, b);
  }

  lemma OutcomeKeeps(c: Testbed)
    requires c.WellFormed() && c.Involutive()
    ensures Between(c, Outcome(c)) && Outcome(c).pending == []
  {
    InitBetween(c);
    SearchKeeps(c, Init(c));
  }

  // ---- reachability ----

  ghost predicate ClosedUnderLinks(c: Testbed, S: set<Device>) {
    forall e: End :: c.Inside(e) && e.dev in S ==> c.peer[e].dev in S
  }

  lemma VisitPortWithin(c: Testbed, s: State, e: End, S: set<Device>)
    requires c.WellFormed() && c.Member(e.dev) && e in c.peer
    requires ClosedUnderLinks(c, S) && e.dev in S && Elems(s.visited) <= S && Elems(s.pending) <= S
    ensures Elems(VisitPort(c, s, e).visited) <= S && Elems(VisitPort(c, s, e).pending) <= S
  {
    VisitPortQueue(c, s, e);
    forall d | d in VisitPort(c, s, e).pending ensures d in S {
      assert d in s.pending ==> d in Elems(s.pending);
    }
  }

  lemma {:induction false} VisitPortsWithin(c: Testbed, s: State, d: Device, ports: seq<Port>, S: set<Device>)
    requires c.WellFormed() && c.Member(d) && forall p :: p in ports ==> End(d, p) in c.peer
    requires ClosedUnderLinks(c, S) && d in S && Elems(s.visited) <= S && Elems(s.pending) <= S
    ensures Elems(VisitPorts(c, s, d, ports).visited) <= S && Elems(VisitPorts(c, s, d, ports).pending) <= S
    decreases |ports|
  {
    if ports == [] {
    } else {
      VisitPortWithin(c, s, End(d, ports[0]), S);
      VisitPortsWithin(c, VisitPort(c, s, End(d, ports[0])), d, ports[1..], S);
    }
  }

  lemma {:induction false} SearchWithin(c: Testbed, s: State, S: set<Device>)
    requires c.WellFormed() && WorkList(c, s)
    requires ClosedUnderLinks(c, S) && Elems(s.visited) <= S && Elems(s.pending) <= S
    ensures Elems(Search(c, s).visited) <= S
    decreases c.Members() - Elems(s.visited)
  {
    if s.error.Some? || s.pending == [] {
    } else {
      VisitDeviceWorkList(c, s);
      var d := s.pending[0];
      assert d in c.Members() - Elems(s.visited) && d in Elems(s.pending);
      assert Elems(Pop(s).visited) <= S && Elems(Pop(s).pending) <= S;
      if d in c.ports {
        VisitPortsWithin(c, Pop(s), d, c.ports[d], S);
      }
      SearchWithin(c, VisitDevice(c, s), S);
    }
  }

  /**
   The search ends without an error having visited, each exactly once, the least set of devices that
   holds the traffic generators and is closed under links inside the testbed.
   */
  lemma VisitsExactlyReachable(c: Testbed)
    requires c.WellFormed() && c.Involutive()
    ensures Outcome(c).error.None? && Outcome(c).pending == [] && Distinct(Outcome(c).visited)
    ensures Elems(c.tgs) <= Elems(Outcome(c).visited)
    ensures ClosedUnderLinks(c, Elems(Outcome(c).visited))
    ensures forall S :: Elems(c.tgs) <= S && ClosedUnderLinks(c, S) ==> Elems(Outcome(c).visited) <= S
  {
    OutcomeKeeps(c);
    VisitedDistinct(c, Outcome(c));
    InitWorkList(c);
    forall S | Elems(c.tgs) <= S && ClosedUnderLinks(c, S) ensures Elems(Outcome(c).visited) <= S {
      SearchWithin(c, Init(c), S);
    }
  }

  // ---- the tables ----

  /**
   The recorded BGP ports are exactly the link ends of visited devices that lead to another testbed
   device, one of the two ends owning a pool, also when the link was first met from a pool-less end.
   */
  lemma RecordsExactly(c: Testbed, e: End)
    requires c.WellFormed() && c.Involutive()
    ensures e in Outcome(c).sessions <==>
            c.Outward(e) && e.dev in Outcome(c).visited && (c.Pooled(e.dev) || c.Pooled(c.peer[e].dev))
  {
    OutcomeKeeps(c);
    var s := Outcome(c);
    if c.Outward(e) && e.dev in s.visited {
      assert c.Member(e.dev) && c.peer[c.peer[e]] == e;
      assert c.peer[e].dev in s.visited;
    }
  }

  /** At every step a recorded port's peer is recorded, with the addresses swapped and the other end's ASN. */
  lemma MirrorsAtEveryStep(c: Testbed, s: State, e: End)
    requires c.Involutive() && Mirrored(c, s) && e in s.sessions
    ensures var f := c.peer[e];
            && f in s.sessions && s.sessions[e].peer == f && s.sessions[f].peer == e
            && f.dev in c.asn && e.dev in c.asn
            && s.sessions[e].peerAsn == c.asn[f.dev] && s.sessions[f].peerAsn == c.asn[e.dev]
            && s.sessions[e].local4 == s.sessions[f].remote4 && s.sessions[e].remote4 == s.sessions[f].local4
            && s.sessions[e].local6 == s.sessions[f].remote6 && s.sessions[e].remote6 == s.sessions[f].local6
  {
    var f := c.peer[e];
    assert c.peer[f] == e && f in c.peer;
    assert s.sessions[e] == SessionAt(c, s.ip4, s.ip6, e, f);
    assert s.sessions[f] == SessionAt(c, s.ip4, s.ip6, f, e);
  }

  lemma PaidMeansAddressed(c: Testbed, pool: map<Device, Network>, used: map<Network, nat>, ip: map<End, Addr>,
                           charged: set<End>, e: End)
    requires Addressed(c, pool, used, ip, charged) && c.Inside(e) && c.Member(e.dev)
    ensures Paid(pool, charged, e) || Paid(pool, charged, c.peer[e]) ==> e in ip
  {
  }

  /** Somebody paid for a recorded link. */
  lemma RowPaid(c: Testbed, s: State, e: End)
    requires Sides(c, s) && Mirrored(c, s) && e in s.sessions
    ensures c.Inside(e) && c.Member(e.dev)
    ensures || Paid(c.pool4, s.charged, e) || Paid(c.pool4, s.charged, c.peer[e])
            || Paid(c.pool6, s.charged, e) || Paid(c.pool6, s.charged, c.peer[e])
  {
  }

  /**
   At every step the addresses in a row, which the draws put there, are the ones its link's interfaces carry,
   and each row has one in some family.
   */
  lemma SessionsCarryInterfaceAddresses(c: Testbed, s: State, e: End)
    requires c.Involutive() && Mirrored(c, s) && Sides(c, s) && e in s.sessions
    requires Addressed(c, c.pool4, s.used4, s.ip4, s.charged) && Addressed(c, c.pool6, s.used6, s.ip6, s.charged)
    ensures e in c.peer
    ensures s.sessions[e].local4 == Lookup(s.ip4, e) && s.sessions[e].remote4 == Lookup(s.ip4, c.peer[e])
    ensures s.sessions[e].local6 == Lookup(s.ip6, e) && s.sessions[e].remote6 == Lookup(s.ip6, c.peer[e])
    ensures s.sessions[e].local4.Some? || s.sessions[e].local6.Some?
  {
    RowMirrored(c, s, e);
    RowPaid(c, s, e);
    PaidMeansAddressed(c, c.pool4, s.used4, s.ip4, s.charged, e);
    PaidMeansAddressed(c, c.pool6, s.used6, s.ip6, s.charged, e);
  }

  /** The BGP table of a finished run is closed under the link involution. */
  lemma SessionsMirror(c: Testbed, e: End)
    requires c.WellFormed() && c.Involutive() && e in Outcome(c).sessions
    ensures var s := Outcome(c).sessions;
            && e in c.peer && c.peer[e] in s && s[e].peer == c.peer[e]
            && s[c.peer[e]] == Session(e, s[e].remote4, s[e].local4, s[e].remote6, s[e].local6, s[c.peer[e]].peerAsn)
            && c.peer[e].dev in c.asn && s[e].peerAsn == c.asn[c.peer[e].dev]
            && (s[e].local4.Some? || s[e].local6.Some?)
  {
    OutcomeKeeps(c);
    MirrorsAtEveryStep(c, Outcome(c), e);
    SessionsCarryInterfaceAddresses(c, Outcome(c), e);
  }

  /** A device lists another as a BGP neighbour exactly when some pooled link joins them. */
  lemma NeighboursExactly(c: Testbed, a: Device, b: Device)
    requires c.WellFormed() && c.Involutive()
    ensures (a, b) in Outcome(c).neighbours <==>
            exists e: End :: c.Outward(e) && e.dev == a && c.peer[e].dev == b && a in Outcome(c).visited
                             && (c.Pooled(a) || c.Pooled(b))
  {
    OutcomeKeeps(c);
    var s := Outcome(c);
    if e: End :| c.Outward(e) && e.dev == a && c.peer[e].dev == b && a in s.visited && (c.Pooled(a) || c.Pooled(b)) {
      RecordsExactly(c, e);
      SessionsMirror(c, e);
      assert Adjacent(s.sessions, a, b);
    }
    if Adjacent(s.sessions, a, b) {
      var e :| e in s.sessions && e.dev == a && s.sessions[e].peer.dev == b;
      RecordsExactly(c, e);
      SessionsMirror(c, e);
    }
  }
}
