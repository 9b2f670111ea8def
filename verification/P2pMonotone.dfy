/** A run never gives subnets back, and an error ends it: what lets a run stop early. */
module P2pMonotone {
  import opened Common
  import opened P2pSearch

  ghost predicate Grows(s: State, r: State) {
    && (s.error.Some? ==> r.error.Some?)
    && (forall n :: Count(s.used4, n) <= Count(r.used4, n))
    && (forall n :: Count(s.used6, n) <= Count(r.used6, n))
  }

  lemma OpenGrows(c: Testbed, m: State, e: End, f: End)
    requires e.dev in c.asn && f.dev in c.asn
    ensures Grows(m, Open(c, m, e, f))
  {
    var t := Address(c, m, e, f);
    assert Grows(m, t);
    RecordLeaves(c, t, e, f, NearRow(c, m, e, f), FarRow(c, m, e, f));
  }

  lemma VisitPortGrows(c: Testbed, s: State, e: End)
    requires c.WellFormed() && c.Member(e.dev) && e in c.peer
    ensures Grows(s, VisitPort(c, s, e))
  {
    var m := s.(met := s.met + {e});
    if c.Member(c.peer[e].dev) {
      OpenGrows(c, m, e, c.peer[e]);
    }
    assert Grows(s, m);
  }

  lemma {:induction false} VisitPortsGrows(c: Testbed, s: State, d: Device, ports: seq<Port>)
    requires c.WellFormed() && c.Member(d) && forall p :: p in ports ==> End(d, p) in c.peer
    ensures Grows(s, VisitPorts(c, s, d, ports))
    decreases |ports|
  {
    if ports == [] {
    } else {
      VisitPortGrows(c, s, End(d, ports[0]));
      VisitPortsGrows(c, VisitPort(c, s, End(d, ports[0])), d, ports[1..]);
    }
  }

  lemma {:induction false} SearchGrows(c: Testbed, s: State)
    requires c.WellFormed() && WorkList(c, s)
    ensures Grows(s, Search(c, s))
    decreases c.Members() - Elems(s.visited)
  {
    if s.error.Some? || s.pending == [] {
    } else {
      VisitDeviceWorkList(c, s);
      var d := s.pending[0];
      assert d in c.Members() - Elems(s.visited);
      if d in c.ports {
        VisitPortsGrows(c, Pop(s), d, c.ports[d]);
      }
      SearchGrows(c, VisitDevice(c, s));
    }
  }
}
