/**
 The point-to-point address search of ansible/library/nut_allocate_ip.py as a state machine on values.
 One step of `VisitPort` is one pass through the body of the inner loop, `VisitDevice` one pass through
 the outer loop, and `Search` the whole work-list loop.

 The nested dictionaries `device -> port -> row` are kept as maps on link ends, and the rows of
 `device_interfaces` as one column per address family. Pools never run dry here: what an exhausted pool
 does to a run is stated by the allocator class, which is tied to this machine.
 */
module P2pSearch {
  import opened Common
  import opened Networks

  type Device = string
  type Port = string

  datatype End = End(dev: Device, port: Port)

  /** `pool.subnets(new_prefix)[slot][host]`, the children having four addresses each. */
  datatype Addr = Addr(pool: Network, slot: nat, host: nat)
  {
    function Ip(): nat {
      pool.base + 4 * slot + host
    }
  }

  /** One row of `device_bgp_neighbor_ports`. */
  datatype Session = Session(
    peer: End,
    local4: Option<Addr>, remote4: Option<Addr>,
    local6: Option<Addr>, remote6: Option<Addr>,
    peerAsn: int)

  datatype Error = NoLinkTable(d: Device) | DuplicateLink(local: End, remote: End)

  /** The inputs: `ports` keeps the iteration order of each device's link table. */
  datatype Testbed = Testbed(
    duts: seq<Device>, tgs: seq<Device>,
    ports: map<Device, seq<Port>>, peer: map<End, End>,
    pool4: map<Device, Network>, pool6: map<Device, Network>,
    asn: map<Device, int>)
  {
    predicate Member(d: Device) {
      d in duts || d in tgs
    }

    function Members(): set<Device> {
      Elems(duts) + Elems(tgs)
    }

    predicate Pooled(d: Device) {
      d in pool4 || d in pool6
    }

    /** A link table is a dictionary of dictionaries, and every testbed device was given an ASN. */
    ghost predicate WellFormed() {
      && (forall d :: d in ports ==> Distinct(ports[d]))
      && (forall e: End :: e in peer <==> e.dev in ports && e.port in ports[e.dev])
      && (forall d :: Member(d) ==> d in asn)
      && Distinct(tgs)
    }

    /** The rows between testbed devices pair up the ports. */
    ghost predicate Involutive() {
      && (forall d :: d in tgs ==> d in ports)
      && (forall e: End :: Inside(e) && Member(e.dev) ==>
            peer[e] in peer && peer[peer[e]] == e && peer[e] != e)
    }

    /** A link end whose peer device belongs to the testbed. */
    predicate Inside(e: End) {
      e in peer && Member(peer[e].dev)
    }

    /** A link that leaves its device and stays in the testbed. */
    predicate Outward(e: End) {
      Inside(e) && peer[e].dev != e.dev
    }
  }

  datatype State = State(
    pending: seq<Device>, visited: seq<Device>,
    ifaces: set<End>, ip4: map<End, Addr>, ip6: map<End, Addr>,
    sessions: map<End, Session>,
    neighbours: set<(Device, Device)>,
    used4: map<Network, nat>, used6: map<Network, nat>,
    met: set<End>,       // link ends the loop has passed over
    charged: set<End>,   // link ends whose device's pools paid for the link
    error: Option<Error>)

  function Init(c: Testbed): State {
    State(c.tgs, [], {}, map[], map[], map[], {}, map[], map[], {}, {}, None)
  }

  // ---- one address family ----

  /** The two writes to one column: the near end takes host 1 of a new child, the far end host 2. */
  function Assign(pool: map<Device, Network>, used: map<Network, nat>, ip: map<End, Addr>, e: End, f: End)
    : map<End, Addr>
  {
    if e.dev !in pool then ip
    else
      var n := pool[e.dev];
      ip[e := Addr(n, Count(used, n), 1)][f := Addr(n, Count(used, n), 2)]
  }

  function Draw(pool: map<Device, Network>, used: map<Network, nat>, d: Device): map<Network, nat> {
    if d !in pool then used
    else used[pool[d] := Count(used, pool[d]) + 1]
  }

  // ---- the loop body ----

  /** The address a draw for device d yields for one host of its child. */
  function Drawn(pool: map<Device, Network>, used: map<Network, nat>, d: Device, host: nat): Option<Addr> {
    if d !in pool then None else Some(Addr(pool[d], Count(used, pool[d]), host))
  }

  /** The rows that the draws of link e -> f put together for its two ends. */
  function NearRow(c: Testbed, s: State, e: End, f: End): Session
    requires f.dev in c.asn
  {
    Session(f, Drawn(c.pool4, s.used4, e.dev, 1), Drawn(c.pool4, s.used4, e.dev, 2),
            Drawn(c.pool6, s.used6, e.dev, 1), Drawn(c.pool6, s.used6, e.dev, 2), c.asn[f.dev])
  }

  function FarRow(c: Testbed, s: State, e: End, f: End): Session
    requires e.dev in c.asn
  {
    Session(e, Drawn(c.pool4, s.used4, e.dev, 2), Drawn(c.pool4, s.used4, e.dev, 1),
            Drawn(c.pool6, s.used6, e.dev, 2), Drawn(c.pool6, s.used6, e.dev, 1), c.asn[e.dev])
  }

  /** Both interface rows exist, and the near device's pools pay for the link. */
  function Address(c: Testbed, s: State, e: End, f: End): State {
    s.(ifaces := s.ifaces + {e, f},
       ip4 := Assign(c.pool4, s.used4, s.ip4, e, f), used4 := Draw(c.pool4, s.used4, e.dev),
       ip6 := Assign(c.pool6, s.used6, s.ip6, e, f), used6 := Draw(c.pool6, s.used6, e.dev),
       charged := if c.Pooled(e.dev) then s.charged + {e} else s.charged)
  }

  /** Both ends of an addressed link become BGP sessions. */
  function Record(c: Testbed, s: State, e: End, f: End, near: Session, far: Session): State {
    if !c.Pooled(e.dev) then s
    else s.(sessions := s.sessions[e := near][f := far],
            neighbours := s.neighbours + {(e.dev, f.dev), (f.dev, e.dev)})
  }

  function Enqueue(s: State, d: Device): State {
    if d in s.visited || d in s.pending then s else s.(pending := s.pending + [d])
  }

  /** The step that addresses a link. */
  function Open(c: Testbed, m: State, e: End, f: End): State
    requires e.dev in c.asn && f.dev in c.asn
  {
    var t := Address(c, m, e, f);
    if f.dev == e.dev then t else Enqueue(Record(c, t, e, f, NearRow(c, m, e, f), FarRow(c, m, e, f)), f.dev)
  }

  function VisitPort(c: Testbed, s: State, e: End): State
    requires c.WellFormed() && c.Member(e.dev) && e in c.peer
  {
    var f := c.peer[e];
    if s.error.Some? then s
    else
      var m := s.(met := s.met + {e});
      if !c.Member(f.dev) || e in s.sessions then m
      else if f in s.sessions then m.(error := Some(DuplicateLink(e, f)))
      else if f.dev !in c.ports then m.(error := Some(NoLinkTable(f.dev)))
      else
        Open(c, m, e, f)
  }

  function VisitPorts(c: Testbed, s: State, d: Device, ports: seq<Port>): State
    requires c.WellFormed() && c.Member(d)
    requires forall p :: p in ports ==> End(d, p) in c.peer
    decreases |ports|
  {
    if ports == [] then s
    else VisitPorts(c, VisitPort(c, s, End(d, ports[0])), d, ports[1..])
  }

  function Pop(s: State): State
    requires s.pending != []
  {
    s.(pending := s.pending[1..], visited := s.visited + [s.pending[0]])
  }

  function VisitDevice(c: Testbed, s: State): State
    requires c.WellFormed() && s.pending != [] && c.Member(s.pending[0])
  {
    var d := s.pending[0];
    if d !in c.ports then Pop(s).(error := Some(NoLinkTable(d)))
    else VisitPorts(c, Pop(s), d, c.ports[d])
  }

  // ---- the work list ----

  /** The queue and the visited list hold testbed devices, each at most once in the two together. */
  ghost predicate WorkList(c: Testbed, s: State) {
    && Distinct(s.visited + s.pending)
    && (forall d :: d in s.visited || d in s.pending ==> c.Member(d))
  }

  /** Every link end of the visited devices was passed over. */
  ghost predicate AllMet(c: Testbed, s: State) {
    forall e: End :: e in c.peer && e.dev in s.visited ==> e in s.met
  }

  lemma RecordLeaves(c: Testbed, s: State, e: End, f: End, near: Session, far: Session)
    ensures var r := Record(c, s, e, f, near, far);
            && r == s.(sessions := r.sessions, neighbours := r.neighbours)
            && r.sessions == (if c.Pooled(e.dev) then s.sessions[e := near][f := far] else s.sessions)
            && r.neighbours == s.neighbours + if c.Pooled(e.dev) then {(e.dev, f.dev), (f.dev, e.dev)} else {}
  {
  }

  /** An opened link queues its peer device, unless it is known or the link is a snake link. */
  lemma OpenQueue(c: Testbed, m: State, e: End, f: End)
    requires e.dev in c.asn && f.dev in c.asn
    ensures var r := Open(c, m, e, f);
            && r.visited == m.visited
            && r.pending == m.pending + if f.dev == e.dev || f.dev in m.visited || f.dev in m.pending then []
                                        else [f.dev]
  {
    assert m.pending + [] == m.pending;
    RecordLeaves(c, Address(c, m, e, f), e, f, NearRow(c, m, e, f), FarRow(c, m, e, f));
  }

  /** A step leaves the work list alone or appends the peer device, a testbed device not seen before. */
  lemma VisitPortQueue(c: Testbed, s: State, e: End)
    requires c.WellFormed() && c.Member(e.dev) && e in c.peer
    ensures var r, d := VisitPort(c, s, e), c.peer[e].dev;
            && r.visited == s.visited
            && (r.pending != s.pending ==>
                  c.Member(d) && d !in s.visited && d !in s.pending && r.pending == s.pending + [d])
  {
    var f, m := c.peer[e], s.(met := s.met + {e});
    if s.error.None? && c.Member(f.dev) && e !in s.sessions && f !in s.sessions && f.dev in c.ports {
      assert VisitPort(c, s, e) == Open(c, m, e, f);
      OpenQueue(c, m, e, f);
    }
  }

  lemma VisitPortWorkList(c: Testbed, s: State, e: End)
    requires c.WellFormed() && c.Member(e.dev) && e in c.peer
    requires WorkList(c, s)
    ensures WorkList(c, VisitPort(c, s, e)) && VisitPort(c, s, e).visited == s.visited
  {
    VisitPortQueue(c, s, e);
    var r := VisitPort(c, s, e);
    if r.pending != s.pending {
      assert r.visited + r.pending == (s.visited + s.pending) + [c.peer[e].dev];
    }
  }

  lemma {:induction false} VisitPortsWorkList(c: Testbed, s: State, d: Device, ports: seq<Port>)
    requires c.WellFormed() && c.Member(d)
    requires forall p :: p in ports ==> End(d, p) in c.peer
    requires WorkList(c, s)
    ensures WorkList(c, VisitPorts(c, s, d, ports)) && VisitPorts(c, s, d, ports).visited == s.visited
    decreases |ports|
  {
    if ports == [] {
    } else {
      VisitPortWorkList(c, s, End(d, ports[0]));
      VisitPortsWorkList(c, VisitPort(c, s, End(d, ports[0])), d, ports[1..]);
    }
  }

  lemma PopWorkList(c: Testbed, s: State)
    requires WorkList(c, s) && s.pending != []
    ensures WorkList(c, Pop(s)) && s.pending[0] !in s.visited && c.Member(s.pending[0])
  {
    assert Pop(s).visited + Pop(s).pending == s.visited + s.pending;
    assert forall i :: 0 <= i < |s.visited| ==> (s.visited + s.pending)[i] == s.visited[i];
    assert (s.visited + s.pending)[|s.visited|] == s.pending[0];
  }

  lemma VisitDeviceWorkList(c: Testbed, s: State)
    requires c.WellFormed() && WorkList(c, s) && s.pending != []
    ensures c.Member(s.pending[0]) && s.pending[0] !in s.visited
    ensures WorkList(c, VisitDevice(c, s)) && VisitDevice(c, s).visited == s.visited + [s.pending[0]]
  {
    PopWorkList(c, s);
    var d := s.pending[0];
    if d in c.ports {
      VisitPortsWorkList(c, Pop(s), d, c.ports[d]);
    }
  }

  /** Each pass moves a device from the unvisited members to the visited list, so the loop ends. */
  function Search(c: Testbed, s: State): State
    requires c.WellFormed() && WorkList(c, s)
    decreases c.Members() - Elems(s.visited)
  {
    if s.error.Some? || s.pending == [] then s
    else
      VisitDeviceWorkList(c, s);
      var d := s.pending[0];
      assert d in c.Members() - Elems(s.visited);
      Search(c, VisitDevice(c, s))
  }

  lemma InitWorkList(c: Testbed)
    requires c.WellFormed()
    ensures WorkList(c, Init(c))
  {
    assert Init(c).visited + Init(c).pending == c.tgs;
  }

  /** The outcome of a run, pools permitting. */
  function Outcome(c: Testbed): State
    requires c.WellFormed()
  {
    InitWorkList(c);
    Search(c, Init(c))
  }
}
