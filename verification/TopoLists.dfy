/** The interface lists of ansible/generate_topo.py, the tor numbers of its VMs, and how many links a port takes up. */
module TopoLists {
  import opened Common
  import opened Topo
  import opened TopoProofs
  import opened TopoLinks
  import opened TopoAsns
  import opened TopoNumbers

  // ---- the lists ----

  /** The ip offsets of the VMs of a role, in order. */
  function OffsetsOf(vms: seq<Vm>, role: Option<Role>): seq<nat> {
    if vms == [] || role.None? then []
    else
      var last := vms[|vms| - 1];
      OffsetsOf(vms[..|vms| - 1], role) + if last.role == role.value.name then [last.ipOffset] else []
  }

  /** The entries of the downlink list that belong to VMs. */
  function LinkIds(downs: seq<Iface>): seq<nat> {
    if downs == [] then []
    else
      var last := downs[|downs| - 1];
      LinkIds(downs[..|downs| - 1]) + if last.LinkIf? then [last.id] else []
  }

  /** The tor number behind the VMs: tors are numbered from 1. */
  function TorAfter(c: Config, vms: seq<Vm>): nat {
    1 + if c.downlink.None? then 0 else OfRole(vms, c.downlink.value.name)
  }

  ghost predicate Listed(c: Config, s: State) {
    && s.ups == OffsetsOf(s.vms, c.uplink)
    && LinkIds(s.downs) == OffsetsOf(s.vms, c.downlink)
    && s.tornum == TorAfter(c, s.vms)
    && forall i :: 0 <= i < |s.vms| ==> s.vms[i].tornum == TorAfter(c, s.vms[..i])
  }

  lemma OneOffsetMore(vms: seq<Vm>, vm: Vm, role: Option<Role>)
    ensures OffsetsOf(vms + [vm], role)
            == OffsetsOf(vms, role) + if role.Some? && vm.role == role.value.name then [vm.ipOffset] else []
  {
    assert (vms + [vm])[..|vms|] == vms;
  }

  lemma OneIfaceMore(downs: seq<Iface>, iface: Iface)
    ensures LinkIds(downs + [iface]) == LinkIds(downs) + if iface.LinkIf? then [iface.id] else []
  {
    assert (downs + [iface])[..|downs|] == downs;
  }

  /** What making a VM does to the lists. */
  lemma MadeLists(s: State, kind: LinkType, links: seq<nat>, role: Role, ipOffset: nat, numLags: nat, r: State)
    requires r == MakeVm(s, kind, links, role, ipOffset, numLags) && !s.failed && !r.failed
    ensures |r.vms| == |s.vms| + 1 && r.vms == s.vms + [r.vms[|s.vms|]]
    ensures var vm := r.vms[|s.vms|];
            && vm.role == role.name && vm.ipOffset == ipOffset && vm.tornum == s.tornum
            && vm.links == links && vm.numLags == numLags
    ensures r.ups == if kind.Up? then s.ups + [ipOffset] else s.ups
    ensures r.downs == if kind.Down? then s.downs + [LinkIf(ipOffset)] else s.downs
    ensures r.tornum == if kind.Down? then s.tornum + 1 else s.tornum
  {
  }

  lemma RoleIsKind(c: Config, kind: LinkType, role: Role, other: LinkType)
    requires RolesDiffer(c) && RoleOf(c, kind) == Some(role)
    ensures RoleOf(c, other).Some? && RoleOf(c, other).value.name == role.name <==> kind == other
  {
  }

  lemma MakeVmLists(c: Config, s: State, kind: LinkType, links: seq<nat>, role: Role, ipOffset: nat, numLags: nat,
                    r: State)
    requires RolesDiffer(c) && RoleOf(c, kind) == Some(role) && Listed(c, s) && !s.failed && !r.failed
    requires r == MakeVm(s, kind, links, role, ipOffset, numLags)
    ensures Listed(c, r)
  {
    MadeLists(s, kind, links, role, ipOffset, numLags, r);
    var vm := r.vms[|s.vms|];
    RoleIsKind(c, kind, role, Up);
    RoleIsKind(c, kind, role, Down);
    OneOffsetMore(s.vms, vm, c.uplink);
    OneOffsetMore(s.vms, vm, c.downlink);
    OneIfaceMore(s.downs, LinkIf(ipOffset));
    TorsNumbered(c, s.vms, vm, r.vms);
  }

  /** The next VM takes the tor number behind the earlier ones. */
  lemma TorsNumbered(c: Config, vms: seq<Vm>, vm: Vm, all: seq<Vm>)
    requires all == vms + [vm] && vm.tornum == TorAfter(c, vms)
    requires forall i :: 0 <= i < |vms| ==> vms[i].tornum == TorAfter(c, vms[..i])
    ensures forall i :: 0 <= i < |all| ==> all[i].tornum == TorAfter(c, all[..i])
    ensures TorAfter(c, all) == TorAfter(c, vms) + if c.downlink.Some? && vm.role == c.downlink.value.name then 1 else 0
  {
    if c.downlink.Some? { OneMore(vms, vm, c.downlink.value.name); }
    forall i | 0 <= i < |all| ensures all[i].tornum == TorAfter(c, all[..i]) {
      assert all[..i] == vms[..i];
      if i == |vms| { assert vms[..i] == vms; }
    }
  }

  /** A step that makes no VM: its lists are the same up to host interfaces. */
  lemma SameLists(c: Config, s: State, r: State)
    requires Listed(c, s) && r.vms == s.vms && r.ups == s.ups && r.tornum == s.tornum
    requires LinkIds(r.downs) == LinkIds(s.downs)
    ensures Listed(c, r)
  {
  }

  /** A link on step makes a VM and keeps the lists. */
  lemma OpenedLists(c: Config, s: State, plan: Plan, role: Role, link: nat, links: seq<nat>, r: State)
    requires RolesDiffer(c) && plan.role == RoleOf(c, plan.kind) == Some(role) && !s.failed && !r.failed
    requires Listed(c, s) && r == MakeVm(s, plan.kind, links, role, link, role.numLags)
    ensures Listed(c, r)
  {
    MakeVmLists(c, s, plan.kind, links, role, link, role.numLags, r);
  }

  lemma LinkLists(c: Config, s: State, plan: Plan, port: int, link: nat, r: State)
    requires RolesDiffer(c) && plan.role == RoleOf(c, plan.kind) && s.start <= link && !s.failed
    requires Listed(c, s) && r == VisitLink(c, s, plan, port, link)
    ensures r.start == s.start && (r.failed || Listed(c, r))
  {
    LinkKeepsStart(c, s, plan, port, link);
    if r.failed {
    } else if plan.role.Some? && (link - s.start) % plan.step == 0 && !InPorts(port, c.skipPorts) {
      OpenedLists(c, s, plan, plan.role.value, link, [link], r);
    } else {
      OneIfaceMore(s.downs, HostIf(link));
      SameLists(c, s, r);
    }
  }

  lemma LinkKeepsStart(c: Config, s: State, plan: Plan, port: int, link: nat)
    requires s.start <= link
    ensures VisitLink(c, s, plan, port, link).start == s.start
  {
    VisitLinkCases(c, s, plan, port, link);
  }

  lemma {:induction false} LinksList(c: Config, s: State, plan: Plan, port: int, link: nat, end: nat)
    requires RolesDiffer(c) && plan.role == RoleOf(c, plan.kind) && s.start <= link <= end
    requires s.failed || Listed(c, s)
    ensures var r := VisitLinks(c, s, plan, port, link, end); r.failed || Listed(c, r)
    decreases end - link
  {
    if link < end {
      var r := VisitLink(c, s, plan, port, link);
      if !s.failed { LinkLists(c, s, plan, port, link, r); }
      LinksList(c, r, plan, port, link + 1, end);
    }
  }

  lemma PlainLists(c: Config, s: State, plan: Plan, port: int)
    requires RolesDiffer(c) && plan.role == RoleOf(c, plan.kind) && Listed(c, s)
    ensures var r := VisitPlain(c, s, plan, port); r.failed || Listed(c, r)
  {
    var end := s.start + plan.links;
    LinksList(c, s, plan, port, s.start, end);
    var u := VisitLinks(c, s, plan, port, s.start, end);
    if !u.failed { SameLists(c, u, u.(start := end)); }
  }

  lemma LagLists(c: Config, s: State, plan: Plan, lag: set<int>)
    requires RolesDiffer(c) && plan.role == RoleOf(c, plan.kind) && Listed(c, s) && !s.failed
    ensures var r := VisitLag(c, s, plan, lag); r.failed || Listed(c, r)
  {
    var r := VisitLag(c, s, plan, lag);
    if !r.failed {
      var count := |lag| * s.breakout.value;
      var v := MakeVm(s, plan.kind, Ids(s.start, count), plan.role.value, s.start, count);
      MakeVmLists(c, s, plan.kind, Ids(s.start, count), plan.role.value, s.start, count, v);
      SameLists(c, v, r);
    }
  }

  lemma PortLists(c: Config, s: State, port: int)
    requires RolesDiffer(c) && (s.failed || Listed(c, s))
    ensures var r := VisitPort(c, s, port); r.failed || Listed(c, r)
  {
    PlanHasRole(c, port);
    if !s.failed && PlanOf(c, port).Some? {
      var plan := PlanOf(c, port).value;
      var t := if plan.kind.Up? || plan.kind.Down? then s.(breakout := Some(plan.links)) else s;
      SameLists(c, s, t);
      var lag := FindLag(c.lagEntries, port);
      if port in t.lagged {
        assert VisitPort(c, s, port) == t;
      } else if lag.Some? {
        assert VisitPort(c, s, port) == VisitLag(c, t, plan, lag.value);
        LagLists(c, t, plan, lag.value);
      } else {
        assert VisitPort(c, s, port) == VisitPlain(c, t, plan, port);
        PlainLists(c, t, plan, port);
      }
    }
  }

  lemma {:induction false} PortsList(c: Config, s: State, ports: seq<int>)
    requires RolesDiffer(c) && (s.failed || Listed(c, s))
    ensures var r := VisitPorts(c, s, ports); r.failed || Listed(c, r)
    decreases |ports|
  {
    if ports != [] {
      PortLists(c, s, ports[0]);
      PortsList(c, VisitPort(c, s, ports[0]), ports[1..]);
    }
  }

  /**
   The uplink list holds the uplink VMs and the downlink list the downlink VMs, each in order, beside the host
   interfaces; tor numbers count the downlink VMs from 1, and other VMs carry the number of the next one.
   */
  lemma ListsExactly(c: Config, g: Globals, ports: seq<int>)
    requires RolesDiffer(c) && !Run(c, g, ports).failed
    ensures var s := Run(c, g, ports);
            && s.ups == OffsetsOf(s.vms, c.uplink) && LinkIds(s.downs) == OffsetsOf(s.vms, c.downlink)
            && forall i :: 0 <= i < |s.vms| ==>
                 s.vms[i].tornum == 1 + if c.downlink.None? then 0 else OfRole(s.vms[..i], c.downlink.value.name)
  {
    PortsList(c, Init(g), ports);
    assert Listed(c, Run(c, g, ports));
  }

  // ---- how many links a port takes up ----

  lemma {:induction false} LinksKeepStart(c: Config, s: State, plan: Plan, port: int, link: nat, end: nat)
    requires s.start <= link <= end
    ensures var r := VisitLinks(c, s, plan, port, link, end);
            r.start == s.start && (s.failed || r.failed || (r.lagged == s.lagged && r.breakout == s.breakout))
    decreases end - link
  {
    if link < end {
      var r := VisitLink(c, s, plan, port, link);
      VisitLinkCases(c, s, plan, port, link);
      LinksKeepStart(c, r, plan, port, link + 1, end);
      if r.failed { FailedEnds(c, r, plan, port, link + 1, end); }
    }
  }

  /** A plain port takes up its links. */
  lemma PlainSpan(c: Config, s: State, port: int)
    requires OpensPlain(c, s, port) && !VisitPort(c, s, port).failed
    ensures VisitPort(c, s, port).start == s.start + PlanOf(c, port).value.links
    ensures VisitPort(c, s, port).lagged == s.lagged
  {
    var plan := PlanOf(c, port).value;
    var t := if plan.kind.Up? || plan.kind.Down? then s.(breakout := Some(plan.links)) else s;
    assert VisitPort(c, s, port) == VisitPlain(c, t, plan, port);
    LinksKeepStart(c, t, plan, port, t.start, t.start + plan.links);
  }

  /** The breakout that counts for a LAG: that of its own port, or of the last uplink or downlink port before. */
  function BreakoutAt(s: State, plan: Plan): Option<nat> {
    if plan.kind.Up? || plan.kind.Down? then Some(plan.links) else s.breakout
  }

  /** A LAG takes up the links of all its ports, goes to one VM over just these, and is not opened again. */
  lemma LagSpan(c: Config, s: State, port: int)
    requires OpensLag(c, s, port) && !VisitPort(c, s, port).failed
    ensures var plan, lag, r := PlanOf(c, port).value, FindLag(c.lagEntries, port).value, VisitPort(c, s, port);
            && BreakoutAt(s, plan).Some? && r.lagged == s.lagged + lag && |r.vms| == |s.vms| + 1
            && r.start == s.start + |lag| * BreakoutAt(s, plan).value
            && r.vms[|s.vms|].numLags == |lag| * BreakoutAt(s, plan).value
            && r.vms[|s.vms|].links == Ids(s.start, |lag| * BreakoutAt(s, plan).value)
  {
    var plan, lag := PlanOf(c, port).value, FindLag(c.lagEntries, port).value;
    var t := if plan.kind.Up? || plan.kind.Down? then s.(breakout := Some(plan.links)) else s;
    assert VisitPort(c, s, port) == VisitLag(c, t, plan, lag);
    var count := |lag| * t.breakout.value;
    var v := MakeVm(t, plan.kind, Ids(t.start, count), plan.role.value, t.start, count);
    MadeLists(t, plan.kind, Ids(t.start, count), plan.role.value, t.start, count, v);
    MadeVmLagged(t, plan.kind, Ids(t.start, count), plan.role.value, t.start, count);
  }

  /** A port of a LAG that was opened takes up nothing. */
  lemma OpenedSpan(c: Config, s: State, port: int)
    requires !s.failed && PlanOf(c, port).Some? && port in s.lagged
    ensures var r := VisitPort(c, s, port);
            r == s.(breakout := BreakoutAt(s, PlanOf(c, port).value))
  {
  }

  // ---- what each kind of port serves ----

  /**
   A port without LAG in a finished run, with the role and step of its kind: it takes up so many links, opens a VM at
   each link on step if it has a role, and serves host interfaces if it has none.
   */
  ghost predicate ServesLinks(c: Config, r: State, port: int, first: nat, end: nat, id: nat, role: Option<Role>,
                              links: nat, step: Positive)
  {
    var onStep, skipped := first <= id && (id - first) % step == 0, InPorts(port, c.skipPorts);
    && end == first + links
    && (VmAt(r.vms, id) <==> role.Some? && onStep && !skipped)
    && (HostIf(id) in r.downs <==> role.None? && onStep && !skipped && id !in c.skipLinks)
    && (id in r.disabled <==> role.None? && (skipped || id in c.skipLinks))
  }

  lemma PlanServes(g: Globals, c: Config, before: seq<int>, port: int, after: seq<int>, id: nat, first: nat, end: nat)
    requires g.Legal() && !Run(c, g, before + [port] + after).failed && OpensPlain(c, Run(c, g, before), port)
    requires first == Run(c, g, before).start && end == Run(c, g, before + [port]).start && first <= id < end
    ensures var plan := PlanOf(c, port).value;
            ServesLinks(c, Run(c, g, before + [port] + after), port, first, end, id, plan.role, plan.links, plan.step)
  {
    var s := Run(c, g, before);
    PortsSplit(c, Init(g), before + [port], after);
    PortsSplit(c, Init(g), before, [port]);
    assert [port][1..] == [];
    assert Run(c, g, before + [port]) == VisitPort(c, s, port);
    if VisitPort(c, s, port).failed { FailedRuns(c, VisitPort(c, s, port), after); }
    PlainSpan(c, s, port);
    LinksServedExactly(g, c, before, port, after, id);
  }

  /**
   The kind of a port decides: an uplink entry comes before a peer entry, that before a fabric entry, and every other
   port is a downlink. Uplinks and downlinks have breakout and step of their own, fabric ports a breakout, peers one
   link.
   */
  lemma ServedByKind(g: Globals, c: Config, before: seq<int>, port: int, after: seq<int>, id: nat, first: nat, end: nat)
    requires g.Legal() && !Run(c, g, before + [port] + after).failed && OpensPlain(c, Run(c, g, before), port)
    requires first == Run(c, g, before).start && end == Run(c, g, before + [port]).start && first <= id < end
    ensures var r := Run(c, g, before + [port] + after);
            if InPorts(port, c.uplinkPorts) then
              c.uplink.Some? && ServesLinks(c, r, port, first, end, id, c.uplink, c.usBreakout, c.usLinkStep)
            else if port in c.peerPorts then
              c.peer.Some? && ServesLinks(c, r, port, first, end, id, c.peer, 1, 1)
            else if InPorts(port, c.fabricPorts) then
              c.fabric.Some? && ServesLinks(c, r, port, first, end, id, c.fabric, c.fabricBreakout, 1)
            else
              ServesLinks(c, r, port, first, end, id, c.downlink, c.dsBreakout, c.dsLinkStep)
  {
    PlanServes(g, c, before, port, after, id, first, end);
  }

  // ---- the VM of a plain link ----

  /** The VM that opens at the link id stands over that link alone, with the role's number of LAGs. */
  ghost predicate LoneVm(vms: seq<Vm>, id: nat, role: Role) {
    exists i :: 0 <= i < |vms| && vms[i].ipOffset == id && IsLone(vms[i], role)
  }

  ghost predicate IsLone(vm: Vm, role: Role) {
    vm.links == [vm.ipOffset] && vm.role == role.name && vm.numLags == role.numLags
  }

  lemma LoneStays(vms: seq<Vm>, more: seq<Vm>, id: nat, role: Role)
    requires LoneVm(vms, id, role) && vms <= more
    ensures LoneVm(more, id, role)
  {
    var i :| 0 <= i < |vms| && vms[i].ipOffset == id && IsLone(vms[i], role);
    assert more[i] == vms[i];
  }

  lemma OpenedLone(c: Config, s: State, plan: Plan, port: int, link: nat, role: Role, r: State)
    requires s.start <= link && !s.failed && r == VisitLink(c, s, plan, port, link) && !r.failed
    requires plan.role == Some(role) && (link - s.start) % plan.step == 0 && !InPorts(port, c.skipPorts)
    ensures LoneVm(r.vms, link, role)
  {
    MadeLists(s, plan.kind, [link], role, link, role.numLags, r);
    assert r.vms[|s.vms|].ipOffset == link && IsLone(r.vms[|s.vms|], role);
  }

  lemma {:induction false} LinkLone(c: Config, s: State, plan: Plan, port: int, link: nat, end: nat, id: nat,
                                    role: Role)
    requires s.start <= link <= id < end && !s.failed && !VisitLinks(c, s, plan, port, link, end).failed
    requires plan.role == Some(role) && (id - s.start) % plan.step == 0 && !InPorts(port, c.skipPorts)
    ensures LoneVm(VisitLinks(c, s, plan, port, link, end).vms, id, role)
    decreases end - link
  {
    var r, next := VisitLink(c, s, plan, port, link), link + 1;
    LinkGrows(c, s, plan, port, link);
    if r.failed { FailedEnds(c, r, plan, port, next, end); }
    if id == link {
      OpenedLone(c, s, plan, port, link, role, r);
      LinksGrow(c, r, plan, port, next, end);
      LoneStays(r.vms, VisitLinks(c, r, plan, port, next, end).vms, id, role);
    } else {
      LinkLone(c, r, plan, port, next, end, id, role);
    }
  }

  lemma PortLone(c: Config, s: State, port: int, id: nat, role: Role)
    requires OpensPlain(c, s, port) && !VisitPort(c, s, port).failed
    requires PlanOf(c, port).value.role == Some(role) && !InPorts(port, c.skipPorts)
    requires s.start <= id < s.start + PlanOf(c, port).value.links && (id - s.start) % PlanOf(c, port).value.step == 0
    ensures LoneVm(VisitPort(c, s, port).vms, id, role)
  {
    var plan := PlanOf(c, port).value;
    var t := if plan.kind.Up? || plan.kind.Down? then s.(breakout := Some(plan.links)) else s;
    assert VisitPort(c, s, port) == VisitPlain(c, t, plan, port);
    var end := t.start + plan.links;
    LinkLone(c, t, plan, port, t.start, end, id, role);
  }

  /** A VM on a plain port of a finished run stands over its link alone, with role and LAGs of the port's role. */
  lemma PlainVmIsLone(g: Globals, c: Config, before: seq<int>, port: int, after: seq<int>, i: nat)
    requires g.Legal() && !Run(c, g, before + [port] + after).failed
    requires OpensPlain(c, Run(c, g, before), port) && i < |Run(c, g, before + [port] + after).vms|
    requires var first := Run(c, g, before).start;
             first <= Run(c, g, before + [port] + after).vms[i].ipOffset < first + PlanOf(c, port).value.links
    ensures PlanOf(c, port).value.role.Some?
    ensures IsLone(Run(c, g, before + [port] + after).vms[i], PlanOf(c, port).value.role.value)
  {
    var vms, s, ports := Run(c, g, before + [port] + after).vms, Run(c, g, before), before + [port] + after;
    PlainVmOpened(g, c, before, port, after, i);
    RunAround(c, g, before, port, after);
    var id, role := vms[i].ipOffset, PlanOf(c, port).value.role.value;
    PortLone(c, s, port, id, role);
    LoneStays(VisitPort(c, s, port).vms, vms, id, role);
    var k :| 0 <= k < |vms| && vms[k].ipOffset == id && IsLone(vms[k], role);
    if i < k { VmsNumbered(c, g, ports, i, k); }
    if k < i { VmsNumbered(c, g, ports, k, i); }
  }
}
