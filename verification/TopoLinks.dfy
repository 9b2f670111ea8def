/**
 What the topology generator makes of each link: every link id of a port without a LAG is used as the port's plan
 says.
 */
module TopoLinks {
  import opened Common
  import opened Topo
  import opened TopoProofs

  /** A VM opens at the link id: it is the VM's first one, and its ip offset. */
  ghost predicate VmAt(vms: seq<Vm>, id: nat) {
    exists i :: 0 <= i < |vms| && vms[i].ipOffset == id
  }

  /** The link id is used by the same kinds of things in both states. */
  ghost predicate SameAt(r: State, s: State, id: nat) {
    && (VmHas(r.vms, id) <==> VmHas(s.vms, id)) && (VmAt(r.vms, id) <==> VmAt(s.vms, id))
    && (HostIf(id) in r.downs <==> HostIf(id) in s.downs)
    && (id in r.disabled <==> id in s.disabled)
  }

  /**
   A link on step of a port that is not skipped opens a VM if the port has a role, and otherwise a host
   interface unless the link is skipped; skipped links of a port without a role are disabled.
   */
  ghost predicate Serves(c: Config, s: State, plan: Plan, port: int, first: nat, id: nat)
    requires first <= id
  {
    var onStep := (id - first) % plan.step == 0;
    var portSkipped, linkSkipped := InPorts(port, c.skipPorts), id in c.skipLinks;
    && (VmHas(s.vms, id) <==> plan.role.Some? && onStep && !portSkipped)
    && (VmAt(s.vms, id) <==> VmHas(s.vms, id))
    && (HostIf(id) in s.downs <==> plan.role.None? && onStep && !portSkipped && !linkSkipped)
    && (id in s.disabled <==> plan.role.None? && (portSkipped || linkSkipped))
  }

  // ---- links that a step does not touch ----

  lemma AppendedVm(vms: seq<Vm>, vm: Vm, id: nat)
    ensures VmHas(vms + [vm], id) <==> VmHas(vms, id) || id in vm.links
    ensures VmAt(vms + [vm], id) <==> VmAt(vms, id) || vm.ipOffset == id
  {
    var all := vms + [vm];
    assert all[|vms|] == vm;
    if VmAt(vms, id) {
      var i :| 0 <= i < |vms| && vms[i].ipOffset == id;
      assert all[i].ipOffset == id;
    }
    if VmHas(vms, id) {
      var i :| 0 <= i < |vms| && id in vms[i].links;
      assert id in all[i].links;
    }
    if id in vm.links { assert id in all[|vms|].links; }
  }

  lemma MadeVm(s: State, kind: LinkType, links: seq<nat>, role: Role, ipOffset: nat, numLags: nat, id: nat)
    requires !s.failed
    ensures var v := MakeVm(s, kind, links, role, ipOffset, numLags);
            && (VmHas(v.vms, id) <==> VmHas(s.vms, id) || (!v.failed && id in links))
            && (VmAt(v.vms, id) <==> VmAt(s.vms, id) || (!v.failed && ipOffset == id))
            && (HostIf(id) in v.downs <==> HostIf(id) in s.downs)
            && v.disabled == s.disabled && v.start == s.start
  {
    var v := Build(s, kind, links, role, ipOffset, numLags);
    assert HostIf(id) in s.downs + [LinkIf(ipOffset)] <==> HostIf(id) in s.downs;
    if v.vms != s.vms {
      AppendedVm(s.vms, v.vms[|s.vms|], id);
    }
  }

  lemma LinkElsewhere(c: Config, s: State, plan: Plan, port: int, link: nat, id: nat)
    requires s.start <= link && id != link
    ensures SameAt(VisitLink(c, s, plan, port, link), s, id) && VisitLink(c, s, plan, port, link).start == s.start
  {
    VisitLinkCases(c, s, plan, port, link);
    if plan.role.Some? && !s.failed {
      MadeVm(s, plan.kind, [link], plan.role.value, link, plan.role.value.numLags, id);
    }
  }

  lemma {:induction false} LinksElsewhere(c: Config, s: State, plan: Plan, port: int, link: nat, end: nat, id: nat)
    requires s.start <= link <= end && (id < link || id >= end)
    ensures SameAt(VisitLinks(c, s, plan, port, link, end), s, id)
    ensures VisitLinks(c, s, plan, port, link, end).start == s.start
    decreases end - link
  {
    if link < end {
      LinkElsewhere(c, s, plan, port, link, id);
      LinksElsewhere(c, VisitLink(c, s, plan, port, link), plan, port, link + 1, end, id);
    }
  }

  lemma LagElsewhere(c: Config, s: State, plan: Plan, lag: set<int>, id: nat)
    requires id < s.start && !s.failed
    ensures SameAt(VisitLag(c, s, plan, lag), s, id) && VisitLag(c, s, plan, lag).start >= s.start
  {
    if plan.role.Some? && s.breakout.Some? {
      var count := |lag| * s.breakout.value;
      MadeVm(s, plan.kind, Ids(s.start, count), plan.role.value, s.start, count, id);
    }
  }

  lemma PlainElsewhere(c: Config, s: State, plan: Plan, port: int, id: nat)
    requires id < s.start && !s.failed
    ensures SameAt(VisitPlain(c, s, plan, port), s, id) && VisitPlain(c, s, plan, port).start >= s.start
  {
    LinksElsewhere(c, s, plan, port, s.start, s.start + plan.links, id);
  }

  lemma PortElsewhere(c: Config, s: State, port: int, id: nat)
    requires id < s.start
    ensures SameAt(VisitPort(c, s, port), s, id) && VisitPort(c, s, port).start >= s.start
  {
    if !s.failed && PlanOf(c, port).Some? {
      var plan := PlanOf(c, port).value;
      var t := if plan.kind.Up? || plan.kind.Down? then s.(breakout := Some(plan.links)) else s;
      var lag := FindLag(c.lagEntries, port);
      if port in t.lagged {
        assert VisitPort(c, s, port) == t;
      } else if lag.Some? {
        assert VisitPort(c, s, port) == VisitLag(c, t, plan, lag.value);
        LagElsewhere(c, t, plan, lag.value, id);
      } else {
        assert VisitPort(c, s, port) == VisitPlain(c, t, plan, port);
        PlainElsewhere(c, t, plan, port, id);
      }
    }
  }

  /** Later ports leave the links of earlier ones alone. */
  lemma {:induction false} PortsElsewhere(c: Config, s: State, ports: seq<int>, id: nat)
    requires id < s.start
    ensures SameAt(VisitPorts(c, s, ports), s, id)
    decreases |ports|
  {
    if ports != [] {
      PortElsewhere(c, s, ports[0], id);
      PortsElsewhere(c, VisitPort(c, s, ports[0]), ports[1..], id);
    }
  }

  // ---- links of one port ----

  lemma Unused(g: Globals, s: State, id: nat)
    requires Inv(g, s, id)
    ensures !VmHas(s.vms, id) && !VmAt(s.vms, id) && HostIf(id) !in s.downs && id !in s.disabled
  {
    FreshId(s.vms, id, id);
    assert forall d :: d in s.downs ==> d.id < id;
  }

  lemma LinkServes(g: Globals, c: Config, s: State, plan: Plan, port: int, link: nat)
    requires s.start <= link && Inv(g, s, link) && !VisitLink(c, s, plan, port, link).failed
    ensures Serves(c, VisitLink(c, s, plan, port, link), plan, port, s.start, link)
  {
    Unused(g, s, link);
    if plan.role.Some? {
      MadeVm(s, plan.kind, [link], plan.role.value, link, plan.role.value.numLags, link);
    }
  }

  lemma {:induction false} FailedEnds(c: Config, s: State, plan: Plan, port: int, link: nat, end: nat)
    requires s.start <= link <= end && s.failed
    ensures VisitLinks(c, s, plan, port, link, end).failed
    decreases end - link
  {
    if link < end {
      FailedEnds(c, VisitLink(c, s, plan, port, link), plan, port, link + 1, end);
    }
  }

  lemma {:induction false} LinksServe(g: Globals, c: Config, s: State, plan: Plan, port: int, link: nat, end: nat,
                                      id: nat)
    requires s.start <= link <= id < end && Inv(g, s, link) && !s.failed
    requires !VisitLinks(c, s, plan, port, link, end).failed
    ensures Serves(c, VisitLinks(c, s, plan, port, link, end), plan, port, s.start, id)
    decreases end - link
  {
    var r := VisitLink(c, s, plan, port, link);
    LinkElsewhere(c, s, plan, port, link, link + 1);
    if r.failed {
      FailedEnds(c, r, plan, port, link + 1, end);
    } else if id == link {
      LinkServes(g, c, s, plan, port, link);
      LinksElsewhere(c, r, plan, port, link + 1, end, id);
    } else {
      VisitLinkKeeps(g, c, s, plan, port, link);
      LinksServe(g, c, r, plan, port, link + 1, end, id);
    }
  }

  /** An entry for a LAG that the port belongs to. */
  ghost predicate LagAt(entries: seq<PortEntry>, i: int, port: int) {
    0 <= i < |entries| && entries[i].LagPort? && port in entries[i].ports
  }

  /** A port's LAG is the first entry that holds the port. */
  lemma {:induction false} FindLagFirst(entries: seq<PortEntry>, port: int, k: nat)
    requires LagAt(entries, k, port) && forall j :: 0 <= j < k ==> !LagAt(entries, j, port)
    ensures FindLag(entries, port) == Some(entries[k].ports)
  {
    var rest := entries[1..];
    if k == 0 {
      assert LagAt(entries, 0, port);
    } else {
      assert !LagAt(entries, 0, port);
      forall j | 0 <= j < k - 1 ensures !LagAt(rest, j, port) {
        assert !LagAt(entries, j + 1, port);
      }
      FindLagFirst(rest, port, k - 1);
    }
  }

  lemma {:induction false} FindLagNone(entries: seq<PortEntry>, port: int)
    requires forall j :: 0 <= j < |entries| ==> !LagAt(entries, j, port)
    ensures FindLag(entries, port).None?
  {
    if entries != [] {
      var rest := entries[1..];
      assert !LagAt(entries, 0, port);
      forall j | 0 <= j < |rest| ensures !LagAt(rest, j, port) {
        assert !LagAt(entries, j + 1, port);
      }
      FindLagNone(rest, port);
    }
  }

  /** A port that opens its links one by one. */
  ghost predicate OpensPlain(c: Config, s: State, port: int) {
    && !s.failed && PlanOf(c, port).Some? && FindLag(c.lagEntries, port).None? && port !in s.lagged
  }

  lemma PlainServes(g: Globals, c: Config, s: State, plan: Plan, port: int, id: nat)
    requires !s.failed && Inv(g, s, s.start) && !VisitPlain(c, s, plan, port).failed
    requires s.start <= id < s.start + plan.links
    ensures Serves(c, VisitPlain(c, s, plan, port), plan, port, s.start, id)
    ensures VisitPlain(c, s, plan, port).start == s.start + plan.links
  {
    LinksServe(g, c, s, plan, port, s.start, s.start + plan.links, id);
  }

  lemma PortServes(g: Globals, c: Config, s: State, port: int, id: nat)
    requires OpensPlain(c, s, port) && Inv(g, s, s.start) && !VisitPort(c, s, port).failed
    requires s.start <= id < s.start + PlanOf(c, port).value.links
    ensures Serves(c, VisitPort(c, s, port), PlanOf(c, port).value, port, s.start, id)
    ensures id < VisitPort(c, s, port).start
  {
    var plan := PlanOf(c, port).value;
    var t := if plan.kind.Up? || plan.kind.Down? then s.(breakout := Some(plan.links)) else s;
    assert VisitPort(c, s, port) == VisitPlain(c, t, plan, port);
    PlainServes(g, c, t, plan, port, id);
  }

  /** A port that opens a LAG none of whose ports was opened before. */
  ghost predicate OpensLag(c: Config, s: State, port: int) {
    && !s.failed && PlanOf(c, port).Some? && FindLag(c.lagEntries, port).Some? && port !in s.lagged
  }

  lemma LagLinksServe(g: Globals, c: Config, s: State, plan: Plan, lag: set<int>, id: nat)
    requires !s.failed && Inv(g, s, s.start) && !VisitLag(c, s, plan, lag).failed
    requires s.start <= id < VisitLag(c, s, plan, lag).start
    ensures var r := VisitLag(c, s, plan, lag);
            && VmHas(r.vms, id) && (VmAt(r.vms, id) <==> id == s.start)
            && HostIf(id) !in r.downs && id !in r.disabled && r.lagged == s.lagged + lag
  {
    InvWeakens(g, s, s.start, id);
    Unused(g, s, id);
    var count := |lag| * s.breakout.value;
    MadeVm(s, plan.kind, Ids(s.start, count), plan.role.value, s.start, count, id);
    MadeVmLagged(s, plan.kind, Ids(s.start, count), plan.role.value, s.start, count);
    assert Ids(s.start, count)[id - s.start] == id;
  }

  lemma MadeVmLagged(s: State, kind: LinkType, links: seq<nat>, role: Role, ipOffset: nat, numLags: nat)
    ensures MakeVm(s, kind, links, role, ipOffset, numLags).lagged == s.lagged
  {
  }

  /** All links of a LAG go to one VM, and its ports are not opened again. */
  lemma LagServes(g: Globals, c: Config, s: State, port: int, id: nat)
    requires OpensLag(c, s, port) && Inv(g, s, s.start) && !VisitPort(c, s, port).failed
    requires s.start <= id < VisitPort(c, s, port).start
    ensures var r := VisitPort(c, s, port);
            && VmHas(r.vms, id) && (VmAt(r.vms, id) <==> id == s.start)
            && HostIf(id) !in r.downs && id !in r.disabled
            && FindLag(c.lagEntries, port).value <= r.lagged && port in r.lagged
  {
    var plan, lag := PlanOf(c, port).value, FindLag(c.lagEntries, port).value;
    var t := if plan.kind.Up? || plan.kind.Down? then s.(breakout := Some(plan.links)) else s;
    FindLagNonEmpty(c.lagEntries, port);
    assert VisitPort(c, s, port) == VisitLag(c, t, plan, lag);
    LagLinksServe(g, c, t, plan, lag, id);
  }

  // ---- the whole run ----

  lemma {:induction false} FailedRuns(c: Config, s: State, ports: seq<int>)
    requires s.failed
    ensures VisitPorts(c, s, ports).failed
    decreases |ports|
  {
    if ports != [] {
      FailedRuns(c, VisitPort(c, s, ports[0]), ports[1..]);
    }
  }

  lemma {:induction false} PortsSplit(c: Config, s: State, before: seq<int>, after: seq<int>)
    ensures VisitPorts(c, s, before + after) == VisitPorts(c, VisitPorts(c, s, before), after)
    decreases |before|
  {
    if before == [] {
      assert before + after == after;
    } else {
      assert (before + after)[0] == before[0] && (before + after)[1..] == before[1..] + after;
      PortsSplit(c, VisitPort(c, s, before[0]), before[1..], after);
    }
  }

  /**
   In every finished run, each link id of a port without a LAG is used exactly as the port's plan says:
   nothing before the port takes it, and nothing after the port changes it.
   */
  lemma LinksServedExactly(g: Globals, c: Config, before: seq<int>, port: int, after: seq<int>, id: nat)
    requires g.Legal() && !Run(c, g, before + [port] + after).failed
    requires OpensPlain(c, Run(c, g, before), port)
    requires Run(c, g, before).start <= id < Run(c, g, before).start + PlanOf(c, port).value.links
    ensures Serves(c, Run(c, g, before + [port] + after), PlanOf(c, port).value, port, Run(c, g, before).start, id)
  {
    var s := Run(c, g, before);
    var r := VisitPort(c, s, port);
    PortsSplit(c, Init(g), before + [port], after);
    PortsSplit(c, Init(g), before, [port]);
    assert VisitPorts(c, s, [port]) == r;
    if r.failed { FailedRuns(c, r, after); }
    RunKeeps(g, c, before);
    PortServes(g, c, s, port, id);
    PortsElsewhere(c, r, after, id);
  }

  /** And each link id of a LAG belongs to a VM, which opens at the first one, and to nothing else. */
  lemma LagServedExactly(g: Globals, c: Config, before: seq<int>, port: int, after: seq<int>, id: nat)
    requires g.Legal() && !Run(c, g, before + [port] + after).failed
    requires OpensLag(c, Run(c, g, before), port)
    requires Run(c, g, before).start <= id < Run(c, g, before + [port]).start
    ensures var r := Run(c, g, before + [port] + after);
            && VmHas(r.vms, id) && (VmAt(r.vms, id) <==> id == Run(c, g, before).start)
            && HostIf(id) !in r.downs && id !in r.disabled
  {
    var s := Run(c, g, before);
    var r := VisitPort(c, s, port);
    PortsSplit(c, Init(g), before + [port], after);
    PortsSplit(c, Init(g), before, [port]);
    assert VisitPorts(c, s, [port]) == r;
    if r.failed { FailedRuns(c, r, after); }
    RunKeeps(g, c, before);
    LagServes(g, c, s, port, id);
    PortsElsewhere(c, r, after, id);
  }

  // ---- the traffic generator's own address ----

  /** The run hands out the PTF container's own backplane address. */
  ghost predicate HitsPtf4(vms: seq<Vm>) {
    exists i :: 0 <= i < |vms| && vms[i].bp4 == BP4_PTF
  }

  ghost predicate HitsPtf6(vms: seq<Vm>) {
    exists i :: 0 <= i < |vms| && vms[i].bp6 == BP6_PTF
  }

  lemma PtfHitAt(g: Globals, c: Config, ports: seq<int>)
    requires g.Legal() && !Run(c, g, ports).failed
    ensures HitsPtf4(Run(c, g, ports).vms) <==> g.off4 == 1 && VmAt(Run(c, g, ports).vms, 251)
    ensures HitsPtf6(Run(c, g, ports).vms) <==> g.off6 == 1 && VmAt(Run(c, g, ports).vms, 252)
  {
    var vms := Run(c, g, ports).vms;
    forall i | 0 <= i < |vms|
      ensures vms[i].bp4 == BP4_PTF <==> g.off4 == 1 && vms[i].ipOffset == 251
      ensures vms[i].bp6 == BP6_PTF <==> g.off6 == 1 && vms[i].ipOffset == 252
    {
      PtfHitExactly(c, g, ports, i);
    }
  }

  /** A link of a plain port that opens a VM, as the configuration says. */
  predicate OpensVm(c: Config, port: int, first: nat, id: nat)
    requires PlanOf(c, port).Some? && first <= id
  {
    var plan := PlanOf(c, port).value;
    plan.role.Some? && (id - first) % plan.step == 0 && !InPorts(port, c.skipPorts)
  }

  /**
   Which finished runs hand out the PTF's own address, where link 251 (252 for IPv6) lies on a plain port: those
   that began with the global set and whose port gives that link a VM.
   */
  lemma PtfHitFromPlain(g: Globals, c: Config, before: seq<int>, port: int, after: seq<int>)
    requires g.Legal() && !Run(c, g, before + [port] + after).failed
    requires OpensPlain(c, Run(c, g, before), port)
    ensures var first, links := Run(c, g, before).start, PlanOf(c, port).value.links;
            var vms := Run(c, g, before + [port] + after).vms;
            && (first <= 251 < first + links ==> (HitsPtf4(vms) <==> g.off4 == 1 && OpensVm(c, port, first, 251)))
            && (first <= 252 < first + links ==> (HitsPtf6(vms) <==> g.off6 == 1 && OpensVm(c, port, first, 252)))
  {
    var first, links := Run(c, g, before).start, PlanOf(c, port).value.links;
    PtfHitAt(g, c, before + [port] + after);
    if first <= 251 < first + links { LinksServedExactly(g, c, before, port, after, 251); }
    if first <= 252 < first + links { LinksServedExactly(g, c, before, port, after, 252); }
  }

  /** Where the link lies on a LAG: those that began with the global set and whose LAG starts at that link. */
  lemma PtfHitFromLag(g: Globals, c: Config, before: seq<int>, port: int, after: seq<int>)
    requires g.Legal() && !Run(c, g, before + [port] + after).failed
    requires OpensLag(c, Run(c, g, before), port)
    ensures var first, end := Run(c, g, before).start, Run(c, g, before + [port]).start;
            var vms := Run(c, g, before + [port] + after).vms;
            && (first <= 251 < end ==> (HitsPtf4(vms) <==> g.off4 == 1 && first == 251))
            && (first <= 252 < end ==> (HitsPtf6(vms) <==> g.off6 == 1 && first == 252))
  {
    var first, end := Run(c, g, before).start, Run(c, g, before + [port]).start;
    PtfHitAt(g, c, before + [port] + after);
    if first <= 251 < end { LagServedExactly(g, c, before, port, after, 251); }
    if first <= 252 < end { LagServedExactly(g, c, before, port, after, 252); }
  }
}
