/** The port loop of ansible/generate_topo.py with its lists, counters and module globals updated in place. */
module TopoGenerator {
  import opened Common
  import opened Topo
  import TopoProofs

  class Generator {
    // module globals
    var off4: nat
    var off6: nat
    var asns: Counters
    // the variables of one call
    var vms: seq<Vm>
    var downs: seq<Iface>
    var ups: seq<nat>
    var disabled: seq<nat>
    var roleCount: map<string, nat>
    var lagged: set<int>
    var tornum: nat
    var start: nat
    var breakout: Option<nat>

    constructor (roleAsns: Counters)
      ensures off4 == 0 && off6 == 0 && asns == roleAsns
    {
      off4, off6, asns := 0, 0, roleAsns;
      vms, downs, ups, disabled, roleCount, lagged := [], [], [], [], map[], {};
      tornum, start, breakout := 1, 0, None;
    }

    ghost function Value(): State
      reads this
    {
      State(vms, downs, ups, disabled, roleCount, lagged, tornum, start, breakout, off4, off6, asns, false)
    }

    /** `VM(...)`: the backplane address may advance the globals; false where the range assertion fails. */
    method NewBackplanes(ipOffset: nat) returns (ok: bool, bp4: nat, bp6: nat)
      modifies `off4, `off6
      ensures ok <==> !Exhausted(Plain(BP4_START, BP4_PTF, old(off4), ipOffset))
      ensures ok ==> && bp4 == Wrap4(Plain(BP4_START, BP4_PTF, old(off4), ipOffset))
                     && bp6 == Plain(BP6_START, BP6_PTF, old(off6), ipOffset)
                     && off4 == NextOff(BP4_START, BP4_PTF, old(off4), ipOffset)
                     && off6 == NextOff(BP6_START, BP6_PTF, old(off6), ipOffset)
    {
      bp4 := BP4_START + ipOffset + 1 + off4;
      bp6 := 0;
      if bp4 == BP4_PTF {
        off4 := 1;
        bp4 := BP4_START + ipOffset + 1 + off4;
      }
      if bp4 > BP4_UPPER {
        var diff := bp4 - BP4_UPPER;
        bp4 := BP4_LOWER + diff - 1;
        if bp4 >= BP4_START {
          return false, bp4, bp6;
        }
      }
      bp6 := BP6_START + ipOffset + 1 + off6;
      if bp6 == BP6_PTF {
        off6 := 1;
        bp6 := BP6_START + ipOffset + 1 + off6;
      }
      ok := true;
    }

    method AddVm(kind: LinkType, links: seq<nat>, role: Role, ipOffset: nat, numLags: nat) returns (ok: bool)
      modifies this
      ensures ok <==> !MakeVm(old(Value()), kind, links, role, ipOffset, numLags).failed
      ensures ok ==> Value() == MakeVm(old(Value()), kind, links, role, ipOffset, numLags)
    {
      roleCount := roleCount[role.name := Count(roleCount, role.name) + 1];
      asns := asns.Raised(kind, role.asnIncrement);
      ghost var t := Value();
      var bp4, bp6;
      ok, bp4, bp6 := NewBackplanes(ipOffset);
      if !ok {
        return;
      }
      var vm := Vm(links, |vms|, roleCount[role.name], role.name, tornum, ipOffset, numLags, asns.Of(kind), bp4, bp6);
      vms := vms + [vm];
      assert Value() == NewVm(t, links, roleCount[role.name], role.name, asns.Of(kind), ipOffset, numLags);
      ListInterface(kind, ipOffset);
    }

    method ListInterface(kind: LinkType, id: nat)
      modifies `ups, `downs, `tornum
      ensures Value() == ListVm(old(Value()), kind, id)
    {
      match kind
      case Up => ups := ups + [id];
      case Down =>
        tornum := tornum + 1;
        downs := downs + [LinkIf(id)];
      case Peer =>
      case Fabric =>
    }

    method OpenLink(c: Config, plan: Plan, port: int, link: nat) returns (ok: bool)
      requires start <= link
      modifies this
      ensures ok <==> !VisitLink(c, old(Value()), plan, port, link).failed
      ensures ok ==> Value() == VisitLink(c, old(Value()), plan, port, link)
    {
      ok := true;
      var onStep := (link - start) % plan.step == 0;
      var skipped := InPorts(port, c.skipPorts);
      if plan.role.Some? {
        var role := plan.role.value;
        if onStep && !skipped {
          ok := AddVm(plan.kind, [link], role, link, role.numLags);
        } else if !c.continuousVms {
          roleCount := roleCount[role.name := Count(roleCount, role.name) + 1];
        }
      } else if onStep && !skipped && link !in c.skipLinks {
        downs := downs + [HostIf(link)];
      } else if skipped || link in c.skipLinks {
        disabled := disabled + [link];
      }
    }

    method OpenPlain(c: Config, plan: Plan, port: int) returns (ok: bool)
      modifies this
      ensures ok <==> !VisitPlain(c, old(Value()), plan, port).failed
      ensures ok ==> Value() == VisitPlain(c, old(Value()), plan, port)
    {
      ghost var s := Value();
      var from, end := start, start + plan.links;
      ghost var r := VisitLinks(c, s, plan, port, from, end);
      for link := from to end
        invariant start == from
        invariant VisitLinks(c, Value(), plan, port, link, end) == r
      {
        NextLink(c, Value(), plan, port, link, end, VisitLink(c, Value(), plan, port, link));
        ok := OpenLink(c, plan, port, link);
        if !ok {
          return;
        }
      }
      start := end;
      ok := true;
    }

    method OpenLag(c: Config, plan: Plan, lag: set<int>) returns (ok: bool)
      modifies this
      ensures ok <==> !VisitLag(c, old(Value()), plan, lag).failed
      ensures ok ==> Value() == VisitLag(c, old(Value()), plan, lag)
    {
      if plan.role.None? || breakout.None? {
        return false;
      }
      var count := |lag| * breakout.value;
      ok := AddVm(plan.kind, Ids(start, count), plan.role.value, start, count);
      if ok {
        lagged, start := lagged + lag, start + count;
      }
    }

    method OpenPort(c: Config, port: int) returns (ok: bool)
      modifies this
      ensures ok <==> !VisitPort(c, old(Value()), port).failed
      ensures ok ==> Value() == VisitPort(c, old(Value()), port)
    {
      var plan := PlanOf(c, port);
      if plan.None? {
        return false;
      }
      if plan.value.kind.Up? || plan.value.kind.Down? {
        breakout := Some(plan.value.links);
      }
      if port in lagged {
        return true;
      }
      var lag := FindLag(c.lagEntries, port);
      if lag.Some? {
        ok := OpenLag(c, plan.value, lag.value);
      } else {
        ok := OpenPlain(c, plan.value, port);
      }
    }

    /** The loop over the panel ports. */
    method OpenPorts(c: Config, ports: seq<int>) returns (ok: bool)
      modifies this
      ensures ok <==> !VisitPorts(c, old(Value()), ports).failed
      ensures ok ==> Value() == VisitPorts(c, old(Value()), ports)
    {
      ghost var end := VisitPorts(c, Value(), ports);
      assert ports[0..] == ports;
      for i := 0 to |ports|
        invariant VisitPorts(c, Value(), ports[i..]) == end
      {
        NextPort(c, Value(), ports, i, VisitPort(c, Value(), ports[i]));
        ok := OpenPort(c, ports[i]);
        if !ok {
          return;
        }
      }
      ok := true;
    }

    /** The whole call; the globals keep what earlier calls left in them. */
    method GenerateTopo(c: Config, ports: seq<int>) returns (ok: bool)
      modifies this
      ensures ok <==> !VisitPorts(c, Init(Globals(old(off4), old(off6), old(asns))), ports).failed
      ensures ok ==> Value() == VisitPorts(c, Init(Globals(old(off4), old(off6), old(asns))), ports)
    {
      vms, downs, ups, disabled, roleCount, lagged := [], [], [], [], map[], {};
      tornum, start, breakout := 1, 0, None;
      ok := OpenPorts(c, ports);
    }
  }

  lemma NextLink(c: Config, s: State, plan: Plan, port: int, link: nat, end: nat, t: State)
    requires s.start <= link < end && t == VisitLink(c, s, plan, port, link)
    ensures t.start == s.start
    ensures VisitLinks(c, t, plan, port, link + 1, end) == VisitLinks(c, s, plan, port, link, end)
    ensures t.failed ==> VisitLinks(c, s, plan, port, link, end).failed
  {
    TopoProofs.VisitLinkCases(c, s, plan, port, link);
    if t.failed {
      FailedStays(c, t, plan, port, link + 1, end);
    }
  }

  lemma {:induction false} FailedStays(c: Config, s: State, plan: Plan, port: int, link: nat, end: nat)
    requires s.start <= link <= end && s.failed
    ensures VisitLinks(c, s, plan, port, link, end) == s
    decreases end - link
  {
    if link == end {
    } else {
      FailedStays(c, s, plan, port, link + 1, end);
    }
  }

  lemma NextPort(c: Config, s: State, ports: seq<int>, i: nat, t: State)
    requires i < |ports| && t == VisitPort(c, s, ports[i])
    ensures VisitPorts(c, t, ports[i + 1..]) == VisitPorts(c, s, ports[i..])
    ensures t.failed ==> VisitPorts(c, s, ports[i..]).failed
  {
    assert ports[i..][0] == ports[i] && ports[i..][1..] == ports[i + 1..];
    if t.failed {
      FailedEndsRun(c, t, ports[i + 1..]);
    }
  }

  lemma {:induction false} FailedEndsRun(c: Config, s: State, ports: seq<int>)
    requires s.failed
    ensures VisitPorts(c, s, ports) == s
    decreases |ports|
  {
    if ports == [] {
    } else {
      FailedEndsRun(c, s, ports[1..]);
    }
  }
}
