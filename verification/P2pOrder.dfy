/**
 Which child subnet each link gets: children are handed out in the order in which the search meets the paying ends,
 and devices are visited in the order in which links lead to them.
 */
module P2pOrder {
  import opened Common
  import opened Networks
  import opened P2pSearch
  import opened P2pInvariants
  import opened P2pTheorems
  import opened P2pAddresses

  /** End x stands before end e: by the order of visiting, then by the order of the device's link table. */
  ghost predicate Earlier(c: Testbed, order: seq<Device>, x: End, e: End) {
    || Before(order, x.dev, e.dev)
    || (x.dev == e.dev && e.dev in c.ports && Before(c.ports[e.dev], x.port, e.port))
  }

  lemma BeforeOnce(order: seq<string>, a: string, b: string)
    requires Distinct(order) && Before(order, a, b)
    ensures !Before(order, b, a) && a != b
  {
  }

  lemma EarlierOnce(c: Testbed, order: seq<Device>, x: End, e: End)
    requires c.WellFormed() && Distinct(order) && Earlier(c, order, x, e)
    ensures !Earlier(c, order, e, x)
  {
    if Before(order, x.dev, e.dev) {
      BeforeOnce(order, x.dev, e.dev);
    } else {
      BeforeOnce(c.ports[e.dev], x.port, e.port);
      if Before(order, e.dev, x.dev) { BeforeOnce(order, e.dev, x.dev); }
    }
  }

  lemma EarlierExtends(c: Testbed, order: seq<Device>, d: Device, x: End, e: End)
    requires d !in order && e.dev in order
    ensures Earlier(c, order + [d], x, e) <==> Earlier(c, order, x, e)
  {
    BeforeExtends(order, d, x.dev, e.dev);
  }

  // ---- one address family ----

  /** The ends of e's pool that paid before e. */
  ghost function PaidBefore(c: Testbed, pool: map<Device, Network>, order: seq<Device>, charged: set<End>, e: End)
    : set<End>
    requires e.dev in pool
  {
    set x | x in charged && x.dev in pool && pool[x.dev] == pool[e.dev] && Earlier(c, order, x, e)
  }

  /** The end's payment is the last one for its link. */
  ghost predicate PaidLast(c: Testbed, order: seq<Device>, charged: set<End>, e: End) {
    && e in charged && c.Inside(e)
    && (c.Outward(e) || c.peer[e] !in charged || Earlier(c, order, c.peer[e], e))
  }

  /** The two ends hold hosts 1 and 2 of the k-th child of a pool. */
  ghost predicate HoldsChild(ip: map<End, Addr>, e: End, f: End, n: Network, k: nat) {
    e in ip && f in ip && ip[e] == Addr(n, k, 1) && ip[f] == Addr(n, k, 2)
  }

  ghost predicate RankedAt(c: Testbed, pool: map<Device, Network>, order: seq<Device>, charged: set<End>,
                           ip: map<End, Addr>, e: End)
    requires e.dev in pool && e in c.peer
  {
    HoldsChild(ip, e, c.peer[e], pool[e.dev], |PaidBefore(c, pool, order, charged, e)|)
  }

  /** Every paying end holds the child that its place among the payers of its pool names. */
  ghost predicate Ranked(c: Testbed, pool: map<Device, Network>, order: seq<Device>, charged: set<End>,
                         ip: map<End, Addr>) {
    forall e :: PaidLast(c, order, charged, e) && e.dev in pool ==> RankedAt(c, pool, order, charged, ip, e)
  }

  /** All paid ends stand before e. */
  ghost predicate Next(c: Testbed, order: seq<Device>, ends: set<End>, e: End) {
    forall x :: x in ends ==> Earlier(c, order, x, e)
  }

  /** The new payer takes the next child of its pool. */
  lemma NewPayerRanked(c: Testbed, pool: map<Device, Network>, order: seq<Device>, used: map<Network, nat>,
                       ip: map<End, Addr>, charged: set<End>, e: End)
    requires c.WellFormed() && Distinct(order) && e in c.peer && c.peer[e] != e && e.dev in pool && e !in charged
    requires Next(c, order, charged, e) && DrawsCounted(pool, used, charged)
    ensures RankedAt(c, pool, order, charged + {e}, Assign(pool, used, ip, e, c.peer[e]), e)
  {
    if Earlier(c, order, e, e) { EarlierOnce(c, order, e, e); }
    assert PaidBefore(c, pool, order, charged + {e}, e) == PaidFrom(pool, charged, pool[e.dev]);
  }

  /** Earlier payers keep their place and their child. */
  lemma OldPayerRanked(c: Testbed, pool: map<Device, Network>, order: seq<Device>, used: map<Network, nat>,
                       ip: map<End, Addr>, charged: set<End>, e: End, g: End)
    requires c.WellFormed() && c.Involutive() && Distinct(order) && c.Inside(e) && c.Member(e.dev)
    requires g != e && PaidLast(c, order, charged + {e}, g) && g.dev in pool && c.Member(g.dev)
    requires Next(c, order, charged, e) && (c.Outward(e) ==> c.peer[e] !in charged)
    requires Ranked(c, pool, order, charged, ip)
    ensures RankedAt(c, pool, order, charged + {e}, Assign(pool, used, ip, e, c.peer[e]), g)
  {
    EarlierOnce(c, order, g, e);
    assert PaidBefore(c, pool, order, charged + {e}, g) == PaidBefore(c, pool, order, charged, g);
    assert PaidLast(c, order, charged, g);
    assert c.peer[c.peer[g]] == g && c.peer[c.peer[e]] == e;
    assert g != c.peer[e];
    assert RankedAt(c, pool, order, charged, ip, g);
  }

  lemma PaymentRanked(c: Testbed, pool: map<Device, Network>, order: seq<Device>, used: map<Network, nat>,
                      ip: map<End, Addr>, charged: set<End>, e: End)
    requires c.WellFormed() && c.Involutive() && Distinct(order) && c.Inside(e) && c.Member(e.dev) && e !in charged
    requires Next(c, order, charged, e) && (c.Outward(e) ==> c.peer[e] !in charged)
    requires (forall g :: g in charged ==> c.Member(g.dev)) && DrawsCounted(pool, used, charged)
    requires Ranked(c, pool, order, charged, ip)
    ensures Ranked(c, pool, order, charged + {e}, Assign(pool, used, ip, e, c.peer[e]))
  {
    var now, ip' := charged + {e}, Assign(pool, used, ip, e, c.peer[e]);
    forall g | PaidLast(c, order, now, g) && g.dev in pool ensures RankedAt(c, pool, order, now, ip', g) {
      if g == e {
        NewPayerRanked(c, pool, order, used, ip, charged, e);
      } else {
        OldPayerRanked(c, pool, order, used, ip, charged, e, g);
      }
    }
  }

  lemma RankedExtends(c: Testbed, pool: map<Device, Network>, order: seq<Device>, charged: set<End>,
                      ip: map<End, Addr>, d: Device)
    requires Ranked(c, pool, order, charged, ip) && d !in order && forall e :: e in charged ==> e.dev in order
    ensures Ranked(c, pool, order + [d], charged, ip)
  {
    var longer := order + [d];
    forall e | PaidLast(c, longer, charged, e) && e.dev in pool ensures RankedAt(c, pool, longer, charged, ip, e) {
      forall x ensures Earlier(c, longer, x, e) <==> Earlier(c, order, x, e) {
        EarlierExtends(c, order, d, x, e);
      }
      assert PaidLast(c, order, charged, e);
      assert PaidBefore(c, pool, longer, charged, e) == PaidBefore(c, pool, order, charged, e);
    }
  }

  // ---- the order of discovery ----

  /** A link end that leads to another device. */
  ghost predicate Leads(c: Testbed, e: End, d: Device) {
    c.Outward(e) && c.peer[e].dev == d
  }

  /** Some end leads to a before any end leads to b. */
  ghost predicate LedToFirst(c: Testbed, order: seq<Device>, met: set<End>, a: Device, b: Device) {
    exists e :: e in met && Leads(c, e, a) && forall g :: g in met && Leads(c, g, b) ==> Earlier(c, order, e, g)
  }

  ghost predicate Found(c: Testbed, met: set<End>, d: Device) {
    exists e :: e in met && Leads(c, e, d)
  }

  /** Behind the traffic generators, devices stand in the order in which links lead to them. */
  ghost predicate QueuedInOrder(c: Testbed, order: seq<Device>, met: set<End>, queue: seq<Device>) {
    && |c.tgs| <= |queue| && queue[..|c.tgs|] == c.tgs
    && (forall i :: |c.tgs| <= i < |queue| ==> Found(c, met, queue[i]))
    && (forall i, j :: |c.tgs| <= i < j < |queue| ==> LedToFirst(c, order, met, queue[i], queue[j]))
  }

  lemma LedToFirstStays(c: Testbed, order: seq<Device>, met: set<End>, e: End, a: Device, b: Device)
    requires LedToFirst(c, order, met, a, b) && Next(c, order, met, e)
    ensures LedToFirst(c, order, met + {e}, a, b)
  {
    var x :| x in met && Leads(c, x, a) && forall g :: g in met && Leads(c, g, b) ==> Earlier(c, order, x, g);
    assert x in met + {e};
  }

  lemma FoundStays(c: Testbed, met: set<End>, e: End, d: Device)
    requires Found(c, met, d)
    ensures Found(c, met + {e}, d)
  {
    var x :| x in met && Leads(c, x, d);
    assert x in met + {e};
  }

  /** A device that e leads to first stands behind all devices found before. */
  lemma NewlyLedTo(c: Testbed, order: seq<Device>, met: set<End>, e: End, a: Device, b: Device)
    requires Found(c, met, a) && Leads(c, e, b) && !Found(c, met, b) && Next(c, order, met, e)
    ensures LedToFirst(c, order, met + {e}, a, b)
  {
    var x :| x in met && Leads(c, x, a);
    assert forall g :: g in met ==> !Leads(c, g, b);
    assert forall g :: g in met + {e} && Leads(c, g, b) ==> g == e;
    assert x in met + {e};
  }

  lemma SameQueue(c: Testbed, order: seq<Device>, met: set<End>, e: End, queue: seq<Device>)
    requires QueuedInOrder(c, order, met, queue) && Next(c, order, met, e)
    ensures QueuedInOrder(c, order, met + {e}, queue)
  {
    forall i | |c.tgs| <= i < |queue| ensures Found(c, met + {e}, queue[i]) {
      FoundStays(c, met, e, queue[i]);
    }
    forall i, j | |c.tgs| <= i < j < |queue| ensures LedToFirst(c, order, met + {e}, queue[i], queue[j]) {
      LedToFirstStays(c, order, met, e, queue[i], queue[j]);
    }
  }

  lemma LongerQueue(c: Testbed, order: seq<Device>, met: set<End>, e: End, queue: seq<Device>, d: Device)
    requires QueuedInOrder(c, order, met, queue) && Next(c, order, met, e)
    requires Leads(c, e, d) && !Found(c, met, d)
    ensures QueuedInOrder(c, order, met + {e}, queue + [d])
  {
    SameQueue(c, order, met, e, queue);
    var longer := queue + [d];
    assert longer[..|c.tgs|] == queue[..|c.tgs|];
    assert e in met + {e} && Found(c, met + {e}, d);
    forall i, j | |c.tgs| <= i < j < |longer| ensures LedToFirst(c, order, met + {e}, longer[i], longer[j]) {
      if j == |queue| {
        NewlyLedTo(c, order, met, e, queue[i], d);
      }
    }
  }

  lemma QueueExtends(c: Testbed, order: seq<Device>, met: set<End>, queue: seq<Device>, d: Device)
    requires QueuedInOrder(c, order, met, queue) && d !in order && forall e :: e in met ==> e.dev in order
    ensures QueuedInOrder(c, order + [d], met, queue)
  {
    forall i, j | |c.tgs| <= i < j < |queue| ensures LedToFirst(c, order + [d], met, queue[i], queue[j]) {
      var x :| x in met && Leads(c, x, queue[i])
               && forall g :: g in met && Leads(c, g, queue[j]) ==> Earlier(c, order, x, g);
      forall g | g in met && Leads(c, g, queue[j]) ensures Earlier(c, order + [d], x, g) {
        EarlierExtends(c, order, d, x, g);
      }
    }
  }

  // ---- the loops ----

  ghost predicate BothRanked(c: Testbed, s: State) {
    Ranked(c, c.pool4, s.visited, s.charged, s.ip4) && Ranked(c, c.pool6, s.visited, s.charged, s.ip6)
  }

  ghost predicate InOrder(c: Testbed, s: State) {
    BothRanked(c, s) && QueuedInOrder(c, s.visited, s.met, s.visited + s.pending)
  }

  /** Which end the loop meets next. */
  ghost predicate MeetsNext(c: Testbed, s: State, e: End) {
    Fresh(c, s, e) && Distinct(s.visited) && Next(c, s.visited, s.met, e)
  }

  /** One family across a step, which either pays for the link or leaves its columns alone. */
  lemma FamilyStaysRanked(c: Testbed, pool: map<Device, Network>, s: State, e: End, used: map<Network, nat>,
                          ip: map<End, Addr>, order': seq<Device>, charged': set<End>, ip': map<End, Addr>)
    requires c.WellFormed() && c.Involutive() && MeetsNext(c, s, e) && order' == s.visited
    requires Sides(c, s) && e !in s.charged && (Opens(c, s, e) && c.Outward(e) ==> c.peer[e] !in s.charged)
    requires DrawsCounted(pool, used, s.charged) && Ranked(c, pool, s.visited, s.charged, ip)
    requires if Opens(c, s, e) && c.Pooled(e.dev) then
               charged' == s.charged + {e} && ip' == Assign(pool, used, ip, e, c.peer[e])
             else
               charged' == s.charged && ip' == ip
    ensures Ranked(c, pool, order', charged', ip')
  {
    if Opens(c, s, e) && c.Pooled(e.dev) {
      PaymentRanked(c, pool, s.visited, used, ip, s.charged, e);
    }
  }

  lemma NewNotFound(c: Testbed, s: State, e: End, d: Device)
    requires Queued(c, s) && d !in s.visited && d !in s.pending
    ensures !Found(c, s.met, d)
  {
  }

  lemma StepQueued(c: Testbed, s: State, e: End, r: State)
    requires MeetsNext(c, s, e) && SteppedSets(c, s, e, r) && Queued(c, s)
    requires QueuedInOrder(c, s.visited, s.met, s.visited + s.pending)
    ensures QueuedInOrder(c, r.visited, r.met, r.visited + r.pending)
  {
    var d, queue := c.peer[e].dev, s.visited + s.pending;
    if Opens(c, s, e) && NewDevice(s, e.dev, d) {
      NewNotFound(c, s, e, d);
      LongerQueue(c, s.visited, s.met, e, queue, d);
      assert r.visited + r.pending == queue + [d];
    } else {
      SameQueue(c, s.visited, s.met, e, queue);
      assert r.pending == s.pending;
    }
  }

  lemma StepInOrder(c: Testbed, s: State, e: End)
    requires c.WellFormed() && c.Involutive() && Inv(c, s) && MeetsNext(c, s, e) && InOrder(c, s)
    ensures InOrder(c, VisitPort(c, s, e))
  {
    VisitPortKeeps(c, s, e);
    SteppedInOrder(c, s, e, VisitPort(c, s, e));
  }

  lemma SteppedInOrder(c: Testbed, s: State, e: End, r: State)
    requires c.WellFormed() && c.Involutive() && MeetsNext(c, s, e) && InOrder(c, s) && Stepped(c, s, e, r)
    requires Queued(c, s) && Sides(c, s) && Mirrored(c, s)
    requires DrawsCounted(c.pool4, s.used4, s.charged) && DrawsCounted(c.pool6, s.used6, s.charged)
    ensures InOrder(c, r)
  {
    SetsStep(c, s, e, r);
    StepQueued(c, s, e, r);
    RecordedMeansPeerPaid(c, s, e);
    ColumnsStepped(c, s, e, r);
    BothStayRanked(c, s, e, r);
  }

  lemma BothStayRanked(c: Testbed, s: State, e: End, r: State)
    requires c.WellFormed() && c.Involutive() && MeetsNext(c, s, e) && BothRanked(c, s) && ColumnsMove(c, s, e, r)
    requires Sides(c, s) && e !in s.charged && (Opens(c, s, e) && c.Outward(e) ==> c.peer[e] !in s.charged)
    requires DrawsCounted(c.pool4, s.used4, s.charged) && DrawsCounted(c.pool6, s.used6, s.charged)
    ensures BothRanked(c, r)
  {
    FamilyStaysRanked(c, c.pool4, s, e, s.used4, s.ip4, r.visited, r.charged, r.ip4);
    FamilyStaysRanked(c, c.pool6, s, e, s.used6, s.ip6, r.visited, r.charged, r.ip6);
  }

  /** What the step does to the address columns. */
  ghost predicate ColumnsMove(c: Testbed, s: State, e: End, r: State)
    requires e in c.peer
  {
    && r.visited == s.visited
    && if Opens(c, s, e) && c.Pooled(e.dev) then
         && r.charged == s.charged + {e}
         && r.ip4 == Assign(c.pool4, s.used4, s.ip4, e, c.peer[e])
         && r.ip6 == Assign(c.pool6, s.used6, s.ip6, e, c.peer[e])
       else
         r.charged == s.charged && r.ip4 == s.ip4 && r.ip6 == s.ip6
  }

  lemma ColumnsStepped(c: Testbed, s: State, e: End, r: State)
    requires e in c.peer && e.dev in c.asn && Stepped(c, s, e, r)
    ensures ColumnsMove(c, s, e, r)
  {
  }

  /** The first `done` ports of the device visited last were met, and none of the others. */
  ghost predicate MetUpTo(c: Testbed, s: State, d: Device, done: seq<Port>) {
    && LastVisited(s, d)
    && forall x :: x in s.met ==> x.dev in s.visited && (x.dev == d ==> x.port in done)
  }

  lemma NextPortIsNext(c: Testbed, s: State, d: Device, done: seq<Port>, ports: seq<Port>)
    requires Distinct(s.visited) && MetUpTo(c, s, d, done) && d in c.ports && c.ports[d] == done + ports && ports != []
    ensures Next(c, s.visited, s.met, End(d, ports[0]))
  {
    var e := End(d, ports[0]);
    forall x | x in s.met ensures Earlier(c, s.visited, x, e) {
      BeforeLast(s.visited, x.dev);
      if x.dev == d {
        var i :| 0 <= i < |done| && done[i] == x.port;
        assert c.ports[d][i] == x.port && c.ports[d][|done|] == ports[0];
      }
    }
  }

  lemma OneMoreMet(c: Testbed, s: State, d: Device, done: seq<Port>, p: Port, r: State)
    requires MetUpTo(c, s, d, done) && r.visited == s.visited && r.met == s.met + {End(d, p)}
    ensures MetUpTo(c, r, d, done + [p])
  {
  }

  /** The inner loop over the ports of the device visited last stands behind `done`, with `ports` to come. */
  ghost predicate OnPorts(c: Testbed, s: State, d: Device, done: seq<Port>, ports: seq<Port>) {
    && c.Member(d) && d in c.ports && c.ports[d] == done + ports
    && Distinct(ports) && (forall p :: p in ports ==> Fresh(c, s, End(d, p)))
    && MetExcept(c, s, d) && MetUpTo(c, s, d, done)
  }

  lemma NextOnPorts(c: Testbed, s: State, d: Device, done: seq<Port>, ports: seq<Port>, r: State)
    returns (more: seq<Port>, rest: seq<Port>)
    requires OnPorts(c, s, d, done, ports) && ports != []
    requires r.visited == s.visited && r.met == s.met + {End(d, ports[0])}
    ensures more == done + [ports[0]] && rest == ports[1..] && OnPorts(c, r, d, more, rest)
  {
    more, rest := done + [ports[0]], ports[1..];
    RestReady(c, s, r, d, ports);
    OneMoreMet(c, s, d, done, ports[0], r);
    assert c.ports[d] == more + rest;
  }

  lemma {:induction false} PortsInOrder(c: Testbed, s: State, d: Device, done: seq<Port>, ports: seq<Port>)
    requires c.WellFormed() && c.Involutive() && Inv(c, s) && PaidFirst(c, s)
    requires OnPorts(c, s, d, done, ports) && InOrder(c, s)
    requires forall p :: p in ports ==> End(d, p) in c.peer
    ensures InOrder(c, VisitPorts(c, s, d, ports))
    decreases |ports|
  {
    if ports != [] {
      var e, r := End(d, ports[0]), VisitPort(c, s, End(d, ports[0]));
      assert ports[0] in ports;
      VisitedDistinct(c, s);
      NextPortIsNext(c, s, d, done, ports);
      StepInOrder(c, s, e);
      StepKeeps(c, s, e);
      var more, rest := NextOnPorts(c, s, d, done, ports, r);
      PortsInOrder(c, r, d, more, rest);
    }
  }

  lemma PopInOrder(c: Testbed, s: State)
    requires c.WellFormed() && Between(c, s) && InOrder(c, s) && s.pending != []
    ensures InOrder(c, Pop(s)) && s.pending[0] !in s.visited
  {
    PopWorkList(c, s);
    RankedExtends(c, c.pool4, s.visited, s.charged, s.ip4, s.pending[0]);
    RankedExtends(c, c.pool6, s.visited, s.charged, s.ip6, s.pending[0]);
    QueueExtends(c, s.visited, s.met, s.visited + s.pending, s.pending[0]);
    assert Pop(s).visited + Pop(s).pending == s.visited + s.pending;
  }

  lemma DeviceInOrder(c: Testbed, s: State)
    requires c.WellFormed() && c.Involutive() && Between(c, s) && InOrder(c, s) && s.pending != []
    ensures c.Member(s.pending[0]) && InOrder(c, VisitDevice(c, s))
  {
    PopWorkList(c, s);
    PopKeeps(c, s);
    PopInOrder(c, s);
    var d := s.pending[0];
    assert d in c.ports && c.ports[d] == [] + c.ports[d];
    forall p | p in c.ports[d] ensures Fresh(c, Pop(s), End(d, p)) {
    }
    PortsInOrder(c, Pop(s), d, [], c.ports[d]);
  }

  lemma {:induction false} SearchInOrder(c: Testbed, s: State)
    requires c.WellFormed() && c.Involutive() && Between(c, s) && InOrder(c, s)
    ensures InOrder(c, Search(c, s))
    decreases c.Members() - Elems(s.visited)
  {
    if s.pending != [] {
      VisitDeviceWorkList(c, s);
      assert s.pending[0] in c.Members() - Elems(s.visited);
      VisitDeviceKeeps(c, s);
      DeviceInOrder(c, s);
      SearchInOrder(c, VisitDevice(c, s));
    }
  }

  lemma OutcomeInOrder(c: Testbed)
    requires c.WellFormed() && c.Involutive()
    ensures InOrder(c, Outcome(c))
  {
    InitBetween(c);
    assert Init(c).visited + Init(c).pending == c.tgs && c.tgs[..|c.tgs|] == c.tgs;
    SearchInOrder(c, Init(c));
  }

  // ---- the promises ----

  /** The paying ends of e's pool that stand before e. */
  ghost function PayersBefore(c: Testbed, pool: map<Device, Network>, order: seq<Device>, e: End): set<End>
    requires e.dev in pool
  {
    set x | x in c.peer && Pays(c, order, x) && x.dev in pool && pool[x.dev] == pool[e.dev] && Earlier(c, order, x, e)
  }

  /** The end's payment decides its link: any paying end of a link between devices, the later end of a snake link. */
  ghost predicate DecidesLink(c: Testbed, order: seq<Device>, e: End) {
    Pays(c, order, e) && (c.Outward(e) || Earlier(c, order, c.peer[e], e))
  }

  lemma FamilyInOrder(c: Testbed, pool: map<Device, Network>, ip: map<End, Addr>, e: End)
    requires c.WellFormed() && c.Involutive() && e.dev in pool
    requires DecidesLink(c, Outcome(c).visited, e) && Ranked(c, pool, Outcome(c).visited, Outcome(c).charged, ip)
    ensures HoldsChild(ip, e, c.peer[e], pool[e.dev], |PayersBefore(c, pool, Outcome(c).visited, e)|)
  {
    var order, charged := Outcome(c).visited, Outcome(c).charged;
    AllChargedExactly(c);
    assert PaidLast(c, order, charged, e);
    assert PaidBefore(c, pool, order, charged, e) == PayersBefore(c, pool, order, e);
    assert RankedAt(c, pool, order, charged, ip, e);
  }

  /**
   A link gets the child whose number is the number of paying ends of the same pool that stand before the one that
   pays for it: the near end host 1, the far end host 2, in each family.
   */
  lemma SubnetsInOrder(c: Testbed, e: End)
    requires c.WellFormed() && c.Involutive() && DecidesLink(c, Outcome(c).visited, e)
    ensures var s := Outcome(c);
            && (e.dev in c.pool4 ==>
                  HoldsChild(s.ip4, e, c.peer[e], c.pool4[e.dev], |PayersBefore(c, c.pool4, s.visited, e)|))
            && (e.dev in c.pool6 ==>
                  HoldsChild(s.ip6, e, c.peer[e], c.pool6[e.dev], |PayersBefore(c, c.pool6, s.visited, e)|))
  {
    OutcomeInOrder(c);
    if e.dev in c.pool4 { FamilyInOrder(c, c.pool4, Outcome(c).ip4, e); }
    if e.dev in c.pool6 { FamilyInOrder(c, c.pool6, Outcome(c).ip6, e); }
  }

  /** The ends of visited devices. */
  ghost predicate Seen(c: Testbed, order: seq<Device>, e: End) {
    e in c.peer && e.dev in order
  }

  /** Among the ends of visited devices, one that leads to a stands before all that lead to b. */
  ghost predicate LeadSeen(c: Testbed, order: seq<Device>, a: Device, b: Device) {
    exists e :: Seen(c, order, e) && Leads(c, e, a)
                && forall g :: Seen(c, order, g) && Leads(c, g, b) ==> Earlier(c, order, e, g)
  }

  /**
   The order of visiting: first the traffic generators as listed, then every other device in the order in which the
   ends of visited devices lead to it.
   */
  lemma VisitedInOrderOfDiscovery(c: Testbed)
    requires c.WellFormed() && c.Involutive()
    ensures var order := Outcome(c).visited;
            && |c.tgs| <= |order| && order[..|c.tgs|] == c.tgs
            && forall i, j :: |c.tgs| <= i < j < |order| ==> LeadSeen(c, order, order[i], order[j])
  {
    OutcomeKeeps(c);
    OutcomeInOrder(c);
    var s := Outcome(c);
    assert s.visited + s.pending == s.visited;
    forall i, j | |c.tgs| <= i < j < |s.visited| ensures LeadSeen(c, s.visited, s.visited[i], s.visited[j]) {
      assert LedToFirst(c, s.visited, s.met, s.visited[i], s.visited[j]);
      AllMetSeen(c, s.visited, s.met, s.visited[i], s.visited[j]);
    }
  }

  lemma AllMetSeen(c: Testbed, order: seq<Device>, met: set<End>, a: Device, b: Device)
    requires LedToFirst(c, order, met, a, b) && forall e :: e in met <==> Seen(c, order, e)
    ensures LeadSeen(c, order, a, b)
  {
    var x :| x in met && Leads(c, x, a) && forall g :: g in met && Leads(c, g, b) ==> Earlier(c, order, x, g);
    assert Seen(c, order, x);
  }
}
