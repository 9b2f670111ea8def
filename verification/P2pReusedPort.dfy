/** When the point-to-point address search raises its duplicate-link error on a table that is no involution. */
module P2pReusedPort {
  import opened Common
  import opened Networks
  import opened P2pSearch

  /** A step raises exactly when its near end is not recorded, and its peer is or has a device without a link table. */
  lemma StepRaisesExactly(c: Testbed, s: State, e: End)
    requires c.WellFormed() && c.Member(e.dev) && e in c.peer && s.error.None?
    ensures VisitPort(c, s, e).error.Some? <==>
              c.Inside(e) && e !in s.sessions && (c.peer[e] in s.sessions || c.peer[e].dev !in c.ports)
    ensures VisitPort(c, s, e).error.Some? ==>
              VisitPort(c, s, e).error == Some(if c.peer[e] in s.sessions then DuplicateLink(e, c.peer[e])
                                               else NoLinkTable(c.peer[e].dev))
  {
    OpenedState(c, s.(met := s.met + {e}), e, c.peer[e]);
  }

  /** What opening a link does to the BGP table. */
  lemma OpenedState(c: Testbed, m: State, e: End, f: End)
    ensures e.dev in c.asn && f.dev in c.asn ==>
              var r := Open(c, m, e, f);
              && r.error == m.error && r.met == m.met
              && r.sessions.Keys == m.sessions.Keys + if f.dev != e.dev && c.Pooled(e.dev) then {e, f} else {}
  {
    if e.dev in c.asn && f.dev in c.asn {
      RecordLeaves(c, Address(c, m, e, f), e, f, NearRow(c, m, e, f), FarRow(c, m, e, f));
    }
  }

  // ---- two rows that share a far port ----

  /** Two pooled ends lead to one port, and nobody else leads to either of them. */
  ghost predicate SharedPort(c: Testbed, a: End, b: End) {
    && a != b && c.Outward(a) && c.Outward(b) && c.peer[a] == c.peer[b]
    && c.Pooled(a.dev) && c.Pooled(b.dev)
    && forall g :: c.Inside(g) && (c.peer[g] == a || c.peer[g] == b) ==> g == c.peer[a]
  }

  /** As long as nothing was raised: pooled ends that were met are recorded, and not both of a and b. */
  ghost predicate Quiet(c: Testbed, s: State, a: End, b: End)
    requires a in c.peer
  {
    && s.error.None?
    && (forall e :: e in s.met && c.Outward(e) && c.Pooled(e.dev) ==> e in s.sessions)
    && (a in s.sessions || b in s.sessions ==> c.peer[a] in s.sessions)
    && !(a in s.sessions && b in s.sessions)
  }

  /** The run has ended in an error: a duplicate link, or a testbed device without a link table. */
  ghost predicate Raised(c: Testbed, s: State) {
    s.error.Some? && (s.error.value.NoLinkTable? ==> c.Member(s.error.value.d) && s.error.value.d !in c.ports)
  }

  ghost predicate Fine(c: Testbed, s: State, a: End, b: End)
    requires a in c.peer
  {
    Raised(c, s) || Quiet(c, s, a, b)
  }

  lemma StepQuiet(c: Testbed, s: State, e: End, a: End, b: End)
    requires c.WellFormed() && c.Member(e.dev) && e in c.peer && SharedPort(c, a, b) && Fine(c, s, a, b)
    ensures var r := VisitPort(c, s, e); Fine(c, r, a, b) && (Raised(c, r) || r.met == s.met + {e})
  {
    if s.error.None? {
      StepRaisesExactly(c, s, e);
      StepRecords(c, s, e);
      RecordedQuiet(c, s, e, VisitPort(c, s, e), a, b);
    }
  }

  /** The step records both ends of a link, and nothing else, exactly when it opens it from a pooled device. */
  lemma StepRecords(c: Testbed, s: State, e: End)
    requires c.WellFormed() && c.Member(e.dev) && e in c.peer && s.error.None?
    ensures VisitPort(c, s, e).error.None? ==> RecordsEnds(c, s, e, VisitPort(c, s, e))
  {
    var f, m := c.peer[e], s.(met := s.met + {e});
    if !c.Inside(e) || e in s.sessions {
      assert VisitPort(c, s, e) == m;
    } else if f !in s.sessions && f.dev in c.ports {
      assert VisitPort(c, s, e) == Open(c, m, e, f);
      OpenedState(c, m, e, f);
      OpenedEnds(c, s, e, Open(c, m, e, f));
    }
  }

  lemma OpenedEnds(c: Testbed, s: State, e: End, r: State)
    requires c.Inside(e) && e !in s.sessions && r.met == s.met + {e} && r.error.None?
    requires var both := if c.peer[e].dev != e.dev && c.Pooled(e.dev) then {e, c.peer[e]} else {};
             r.sessions.Keys == s.sessions.Keys + both
    ensures RecordsEnds(c, s, e, r)
  {
    assert forall g :: g in r.sessions <==> g in r.sessions.Keys;
  }

  ghost predicate RecordsEnds(c: Testbed, s: State, e: End, r: State)
    requires e in c.peer
  {
    && r.met == s.met + {e} && r.error.None?
    && forall g :: g in r.sessions <==>
         g in s.sessions || (c.Outward(e) && c.Pooled(e.dev) && e !in s.sessions && (g == e || g == c.peer[e]))
  }

  lemma RecordedQuiet(c: Testbed, s: State, e: End, r: State, a: End, b: End)
    requires e in c.peer && c.Member(e.dev) && SharedPort(c, a, b) && Quiet(c, s, a, b)
    requires r.error.None? ==> RecordsEnds(c, s, e, r) && (c.Inside(e) && e !in s.sessions ==> c.peer[e] !in s.sessions)
    ensures r.error.None? ==> Quiet(c, r, a, b)
  {
  }

  ghost predicate Met(c: Testbed, s: State, r: State, d: Device, ports: seq<Port>) {
    Raised(c, r) || (s.met <= r.met && forall p :: p in ports ==> End(d, p) in r.met)
  }

  lemma MetFirst(c: Testbed, s: State, u: State, r: State, d: Device, ports: seq<Port>)
    requires ports != [] && (Raised(c, u) || u.met == s.met + {End(d, ports[0])}) && Met(c, u, r, d, ports[1..])
    requires Raised(c, u) ==> Raised(c, r)
    ensures Met(c, s, r, d, ports)
  {
    assert forall p :: p in ports ==> p == ports[0] || p in ports[1..];
  }

  lemma {:induction false} RaisedStays(c: Testbed, s: State, d: Device, ports: seq<Port>)
    requires c.WellFormed() && c.Member(d) && forall p :: p in ports ==> End(d, p) in c.peer
    requires Raised(c, s)
    ensures VisitPorts(c, s, d, ports) == s
    decreases |ports|
  {
    if ports != [] {
      RaisedStays(c, s, d, ports[1..]);
    }
  }

  lemma {:induction false} PortsQuiet(c: Testbed, s: State, d: Device, ports: seq<Port>, a: End, b: End)
    requires c.WellFormed() && c.Member(d) && forall p :: p in ports ==> End(d, p) in c.peer
    requires SharedPort(c, a, b) && Fine(c, s, a, b)
    ensures Fine(c, VisitPorts(c, s, d, ports), a, b) && Met(c, s, VisitPorts(c, s, d, ports), d, ports)
    decreases |ports|
  {
    if ports != [] {
      var u := VisitPort(c, s, End(d, ports[0]));
      StepQuiet(c, s, End(d, ports[0]), a, b);
      PortsQuiet(c, u, d, ports[1..], a, b);
      if Raised(c, u) { RaisedStays(c, u, d, ports[1..]); }
      MetFirst(c, s, u, VisitPorts(c, u, d, ports[1..]), d, ports);
    }
  }

  lemma DeviceQuiet(c: Testbed, s: State, a: End, b: End)
    requires c.WellFormed() && WorkList(c, s) && s.pending != [] && SharedPort(c, a, b) && Quiet(c, s, a, b)
             && AllMet(c, s)
    ensures c.Member(s.pending[0])
    ensures var r := VisitDevice(c, s); Raised(c, r) || (Quiet(c, r, a, b) && AllMet(c, r))
  {
    VisitDeviceWorkList(c, s);
    var d := s.pending[0];
    if d in c.ports {
      PortsQuiet(c, Pop(s), d, c.ports[d], a, b);
    }
  }

  lemma {:induction false} SearchQuiet(c: Testbed, s: State, a: End, b: End)
    requires c.WellFormed() && WorkList(c, s) && SharedPort(c, a, b)
             && (Raised(c, s) || (Quiet(c, s, a, b) && AllMet(c, s)))
    ensures var r := Search(c, s); Raised(c, r) || (Quiet(c, r, a, b) && AllMet(c, r))
    decreases c.Members() - Elems(s.visited)
  {
    if s.error.None? && s.pending != [] {
      VisitDeviceWorkList(c, s);
      DeviceQuiet(c, s, a, b);
      assert s.pending[0] in c.Members() - Elems(s.visited);
      SearchQuiet(c, VisitDevice(c, s), a, b);
    }
  }

  /**
   Two pooled link ends that lead to one port, and to which nothing but that port leads: a run that visits
   both their devices raises, in whatever order it meets the ends. Unless a device has no link table, the
   error is the duplicate-link error.
   */
  lemma SharedPortRaises(c: Testbed, a: End, b: End)
    requires c.WellFormed() && SharedPort(c, a, b)
    requires a.dev in Outcome(c).visited && b.dev in Outcome(c).visited
    ensures Outcome(c).error.Some?
    ensures (forall d :: c.Member(d) ==> d in c.ports) ==> Outcome(c).error.value.DuplicateLink?
  {
    InitWorkList(c);
    SearchQuiet(c, Init(c), a, b);
  }

  // ---- no pools, no error ----

  ghost predicate Unrecorded(s: State) {
    s.sessions == map[] && (s.error.Some? ==> s.error.value.NoLinkTable?)
  }

  lemma {:induction false} PortsUnrecorded(c: Testbed, s: State, d: Device, ports: seq<Port>)
    requires c.WellFormed() && c.Member(d) && forall p :: p in ports ==> End(d, p) in c.peer
    requires Unrecorded(s) && !c.Pooled(d)
    ensures Unrecorded(VisitPorts(c, s, d, ports))
    decreases |ports|
  {
    if ports != [] {
      var e := End(d, ports[0]);
      if s.error.None? {
        StepRaisesExactly(c, s, e);
        OpenedState(c, s.(met := s.met + {e}), e, c.peer[e]);
        assert VisitPort(c, s, e).sessions.Keys == {};
      }
      PortsUnrecorded(c, VisitPort(c, s, e), d, ports[1..]);
    }
  }

  lemma {:induction false} SearchUnrecorded(c: Testbed, s: State)
    requires c.WellFormed() && WorkList(c, s) && Unrecorded(s) && forall d :: c.Member(d) ==> !c.Pooled(d)
    ensures Unrecorded(Search(c, s))
    decreases c.Members() - Elems(s.visited)
  {
    if s.error.None? && s.pending != [] {
      VisitDeviceWorkList(c, s);
      var d := s.pending[0];
      if d in c.ports { PortsUnrecorded(c, Pop(s), d, c.ports[d]); }
      assert d in c.Members() - Elems(s.visited);
      SearchUnrecorded(c, VisitDevice(c, s));
    }
  }

  /** Without pools no link is recorded, and no table, however its rows pair up, raises the duplicate-link error. */
  lemma NoPoolsNoDuplicate(c: Testbed)
    requires c.WellFormed() && forall d :: c.Member(d) ==> !c.Pooled(d)
    ensures Outcome(c).sessions == map[] && (Outcome(c).error.Some? ==> Outcome(c).error.value.NoLinkTable?)
  {
    InitWorkList(c);
    SearchUnrecorded(c, Init(c));
  }

  // ---- an example ----

  /** The second row of device d leads to the port of t that its first row already uses. */
  function Reused(n: Network): Testbed {
    var t, d, e := End("t", "1"), End("d", "1"), End("d", "2");
    Testbed(["d"], ["t"], map["t" := ["1"], "d" := ["1", "2"]], map[t := d, d := t, e := t],
            map["t" := n], map[], map["t" := 1, "d" := 2])
  }

  lemma ReusedTables(n: Network)
    ensures Reused(n).WellFormed() && !Reused(n).Involutive()
  {
    var c, e := Reused(n), End("d", "2");
    assert c.peer[c.peer[e]] == End("d", "1") && c.Inside(e);
  }

  /** Opening a link from a pooled device records both ends and queues the peer device unless it is known. */
  lemma OpenRecords(c: Testbed, m: State, e: End, f: End)
    requires e.dev in c.asn && f.dev in c.asn && f.dev != e.dev && c.Pooled(e.dev)
    requires m.sessions == map[] && m.error.None?
    ensures var r := Open(c, m, e, f);
            && r.sessions.Keys == {e, f} && r.visited == m.visited && r.error.None?
            && r.pending == m.pending + if f.dev in m.visited || f.dev in m.pending then [] else [f.dev]
  {
    OpenedState(c, m, e, f);
    OpenQueue(c, m, e, f);
  }

  /** The only port of the first generator leads to another testbed device. */
  lemma FirstVisit(c: Testbed, t: End, d: End)
    requires c.WellFormed() && c.tgs != [] && c.tgs[0] == t.dev && t.dev in c.ports && c.ports[t.dev] == [t.port]
    requires t in c.peer && c.peer[t] == d && c.Member(d.dev) && d.dev in c.ports && d.dev != t.dev && c.Pooled(t.dev)
    ensures var s := VisitDevice(c, Init(c));
            && s.sessions.Keys == {t, d} && s.visited == [t.dev] && s.error.None?
            && s.pending == c.tgs[1..] + if d.dev in c.tgs[1..] then [] else [d.dev]
  {
    var p := Pop(Init(c));
    OpenRecords(c, p.(met := p.met + {t}), t, d);
    assert [t.port][1..] == [];
    assert VisitPorts(c, p, t.dev, [t.port]) == VisitPorts(c, VisitPort(c, p, t), t.dev, []);
  }

  /** The generator's port records the session of the first row. */
  lemma FirstDevice(n: Network)
    ensures Reused(n).WellFormed()
    ensures var s := VisitDevice(Reused(n), Init(Reused(n)));
            && s.sessions.Keys == {End("t", "1"), End("d", "1")}
            && s.pending == ["d"] && s.visited == ["t"] && s.error.None?
  {
    ReusedTables(n);
    FirstVisit(Reused(n), End("t", "1"), End("d", "1"));
  }

  lemma SecondDevice(n: Network, s: State)
    requires Reused(n).WellFormed()
    requires s.sessions.Keys == {End("t", "1"), End("d", "1")}
    requires s.pending == ["d"] && s.error.None?
    ensures VisitDevice(Reused(n), s).error == Some(DuplicateLink(End("d", "2"), End("t", "1")))
  {
    var c, d, e := Reused(n), End("d", "1"), End("d", "2");
    var p := Pop(s);
    var u := VisitPort(c, p, d);
    assert u == p.(met := p.met + {d});
    var r := VisitPort(c, u, e);
    assert ["1", "2"][1..] == ["2"] && ["2"][1..] == [];
    assert VisitPorts(c, p, "d", ["1", "2"]) == VisitPorts(c, u, "d", ["2"]) == VisitPorts(c, r, "d", []) == r;
  }

  lemma ReusedPortRaises(n: Network)
    ensures Reused(n).WellFormed() && !Reused(n).Involutive()
    ensures Outcome(Reused(n)).error == Some(DuplicateLink(End("d", "2"), End("t", "1")))
  {
    ReusedTables(n);
    var c := Reused(n);
    InitWorkList(c);
    VisitDeviceWorkList(c, Init(c));
    var s := VisitDevice(c, Init(c));
    FirstDevice(n);
    VisitDeviceWorkList(c, s);
    SecondDevice(n, s);
    assert Search(c, Init(c)) == Search(c, s) == Search(c, VisitDevice(c, s)) == VisitDevice(c, s);
  }

  // ---- the order of visiting decides ----

  /** Port 1 of t leads to port 1 of d, and that leads to another port of t. */
  function OneWay(order: seq<Device>, n: Network): Testbed {
    Testbed([], order, map["t" := ["1"], "d" := ["1"]],
            map[End("t", "1") := End("d", "1"), End("d", "1") := End("t", "2")],
            map["t" := n, "d" := n], map[], map["t" := 1, "d" := 2])
  }

  /** Visiting a device with one port is one pass of the inner loop. */
  lemma OnePortDevice(c: Testbed, s: State, e: End)
    requires c.WellFormed() && s.pending == [e.dev] && c.Member(e.dev) && e.dev in c.ports && c.ports[e.dev] == [e.port]
    ensures e in c.peer && VisitDevice(c, s) == VisitPort(c, Pop(s), e)
  {
    assert [e.port][1..] == [];
    assert VisitPorts(c, Pop(s), e.dev, [e.port]) == VisitPorts(c, VisitPort(c, Pop(s), e), e.dev, []);
  }

  /** Two devices, one port each: the second one's port decides how the run ends. */
  lemma TwoVisits(c: Testbed, a: End, b: End)
    requires c.WellFormed() && c.tgs == [a.dev, b.dev] && a.dev != b.dev
    requires a.dev in c.ports && c.ports[a.dev] == [a.port] && b.dev in c.ports && c.ports[b.dev] == [b.port]
    requires a in c.peer && c.peer[a].dev == b.dev && c.Pooled(a.dev) && b in c.peer && c.peer[b].dev == a.dev
    ensures c.peer[a] == b ==> Outcome(c).error == None
    ensures c.peer[a] != b && c.peer[b] == a ==> Outcome(c).error == Some(DuplicateLink(b, a))
  {
    InitWorkList(c);
    VisitDeviceWorkList(c, Init(c));
    FirstVisit(c, a, c.peer[a]);
    var s := VisitDevice(c, Init(c));
    assert c.tgs[1..] == [b.dev] && s.pending == [b.dev];
    VisitDeviceWorkList(c, s);
    OnePortDevice(c, s, b);
    var r := VisitDevice(c, s);
    assert r == VisitPort(c, Pop(s), b);
    assert Search(c, Init(c)) == Search(c, s) == Search(c, r);
    if c.peer[a] == b {
      assert r.pending == [];
    }
  }

  lemma OneWayTables(order: seq<Device>, n: Network)
    requires Distinct(order) && forall d :: d in order ==> d == "t" || d == "d"
    ensures OneWay(order, n).WellFormed()
  {
    var c := OneWay(order, n);
    forall e: End ensures e in c.peer <==> e.dev in c.ports && e.port in c.ports[e.dev] {
      assert e in c.peer <==> e == End("t", "1") || e == End("d", "1");
    }
  }

  lemma TFirstCompletes(n: Network)
    ensures OneWay(["t", "d"], n).WellFormed() && Outcome(OneWay(["t", "d"], n)).error == None
  {
    OneWayTables(["t", "d"], n);
    TwoVisits(OneWay(["t", "d"], n), End("t", "1"), End("d", "1"));
  }

  lemma DFirstRaises(n: Network)
    ensures OneWay(["d", "t"], n).WellFormed()
    ensures Outcome(OneWay(["d", "t"], n)).error == Some(DuplicateLink(End("t", "1"), End("d", "1")))
  {
    OneWayTables(["d", "t"], n);
    TwoVisits(OneWay(["d", "t"], n), End("d", "1"), End("t", "1"));
  }

  /** The same rows and pools, the same two generators: listed as t, d the run completes, listed as d, t it raises. */
  lemma OrderDecides(n: Network)
    ensures OneWay(["t", "d"], n).WellFormed() && OneWay(["d", "t"], n).WellFormed()
    ensures Outcome(OneWay(["t", "d"], n)).error == None
    ensures Outcome(OneWay(["d", "t"], n)).error == Some(DuplicateLink(End("t", "1"), End("d", "1")))
  {
    TFirstCompletes(n);
    DFirstRaises(n);
  }
}
