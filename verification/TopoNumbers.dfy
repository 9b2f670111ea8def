/** Which number ansible/generate_topo.py gives to each VM: the part of its name in front of the role. */
module TopoNumbers {
  import opened Common
  import opened Topo
  import opened TopoProofs
  import opened TopoLinks
  import opened TopoAsns

  /** How many numbers of a role a port uses up: one per link, or a single one for a LAG. */
  ghost function NumbersOf(c: Config, s: State, port: int, role: string): nat {
    if PlanOf(c, port).None? || PlanOf(c, port).value.role.None? || PlanOf(c, port).value.role.value.name != role then 0
    else if port in s.lagged then 0
    else if FindLag(c.lagEntries, port).Some? then 1
    else PlanOf(c, port).value.links
  }

  /** The link ids on plain ports of the role among the given ports, plus its LAGs. */
  ghost function Numbered(c: Config, g: Globals, ports: seq<int>, role: string): nat {
    if ports == [] then 0
    else
      var init := ports[..|ports| - 1];
      Numbered(c, g, init, role) + NumbersOf(c, Run(c, g, init), ports[|ports| - 1], role)
  }

  /** The VM that opens at the link id has this role and number. */
  ghost predicate NumberAt(vms: seq<Vm>, id: nat, role: string, number: nat) {
    exists i :: 0 <= i < |vms| && vms[i].ipOffset == id && vms[i].role == role && vms[i].nameId == number
  }

  lemma NumberStays(vms: seq<Vm>, more: seq<Vm>, id: nat, role: string, number: nat)
    requires NumberAt(vms, id, role, number) && vms <= more
    ensures NumberAt(more, id, role, number)
  {
    var i :| 0 <= i < |vms| && vms[i].ipOffset == id && vms[i].role == role && vms[i].nameId == number;
    assert more[i] == vms[i];
  }

  // ---- one VM, one link ----

  /** Making a VM counts its role once and appends it under that number. */
  lemma MadeNumber(s: State, kind: LinkType, links: seq<nat>, role: Role, ipOffset: nat, numLags: nat, r: State)
    requires r == MakeVm(s, kind, links, role, ipOffset, numLags) && !s.failed && !r.failed
    ensures r.roleCount == s.roleCount[role.name := Count(s.roleCount, role.name) + 1]
    ensures |r.vms| == |s.vms| + 1 && s.vms == r.vms[..|s.vms|]
    ensures var vm := r.vms[|s.vms|];
            vm.role == role.name && vm.nameId == Count(s.roleCount, role.name) + 1 && vm.ipOffset == ipOffset
    ensures r.start == s.start && r.lagged == s.lagged
  {
  }

  /** VMs are only appended. */
  lemma LinkGrows(c: Config, s: State, plan: Plan, port: int, link: nat)
    requires s.start <= link
    ensures s.vms <= VisitLink(c, s, plan, port, link).vms && VisitLink(c, s, plan, port, link).start == s.start
  {
    var r := VisitLink(c, s, plan, port, link);
    VisitLinkCases(c, s, plan, port, link);
    if !s.failed && !r.failed && r.vms != s.vms {
      MadeNumber(s, plan.kind, [link], plan.role.value, link, plan.role.value.numLags, r);
    }
  }

  lemma {:induction false} LinksGrow(c: Config, s: State, plan: Plan, port: int, link: nat, end: nat)
    requires s.start <= link <= end
    ensures s.vms <= VisitLinks(c, s, plan, port, link, end).vms
    decreases end - link
  {
    if link < end {
      LinkGrows(c, s, plan, port, link);
      LinksGrow(c, VisitLink(c, s, plan, port, link), plan, port, link + 1, end);
    }
  }

  lemma LagGrows(c: Config, s: State, plan: Plan, lag: set<int>)
    requires !s.failed
    ensures s.vms <= VisitLag(c, s, plan, lag).vms
  {
    if plan.role.Some? && s.breakout.Some? {
      var count := |lag| * s.breakout.value;
      var v := MakeVm(s, plan.kind, Ids(s.start, count), plan.role.value, s.start, count);
      if !v.failed { MadeNumber(s, plan.kind, Ids(s.start, count), plan.role.value, s.start, count, v); }
    }
  }

  lemma PortGrows(c: Config, s: State, port: int)
    ensures s.vms <= VisitPort(c, s, port).vms
  {
    if !s.failed && PlanOf(c, port).Some? {
      var plan := PlanOf(c, port).value;
      var t := if plan.kind.Up? || plan.kind.Down? then s.(breakout := Some(plan.links)) else s;
      var lag := FindLag(c.lagEntries, port);
      if port in t.lagged {
        assert VisitPort(c, s, port) == t;
      } else if lag.Some? {
        assert VisitPort(c, s, port) == VisitLag(c, t, plan, lag.value);
        LagGrows(c, t, plan, lag.value);
      } else {
        assert VisitPort(c, s, port) == VisitPlain(c, t, plan, port);
        LinksGrow(c, t, plan, port, t.start, t.start + plan.links);
      }
    }
  }

  lemma {:induction false} PortsGrow(c: Config, s: State, ports: seq<int>)
    ensures s.vms <= VisitPorts(c, s, ports).vms
    decreases |ports|
  {
    if ports != [] {
      PortGrows(c, s, ports[0]);
      PortsGrow(c, VisitPort(c, s, ports[0]), ports[1..]);
    }
  }

  // ---- a number for every link ----

  /** Without continuous names each link of a port with a role uses up one number of it. */
  lemma LinkNumbers(c: Config, s: State, plan: Plan, port: int, link: nat, role: string)
    requires s.start <= link && !s.failed && !c.continuousVms && !VisitLink(c, s, plan, port, link).failed
    ensures Count(VisitLink(c, s, plan, port, link).roleCount, role)
            == Count(s.roleCount, role) + if plan.role.Some? && plan.role.value.name == role then 1 else 0
    ensures VisitLink(c, s, plan, port, link).lagged == s.lagged
  {
    var r := VisitLink(c, s, plan, port, link);
    if plan.role.Some? && (link - s.start) % plan.step == 0 && !InPorts(port, c.skipPorts) {
      MadeNumber(s, plan.kind, [link], plan.role.value, link, plan.role.value.numLags, r);
    }
  }

  lemma {:induction false} LinksNumber(c: Config, s: State, plan: Plan, port: int, link: nat, end: nat, role: string)
    requires s.start <= link <= end && !s.failed && !c.continuousVms && !VisitLinks(c, s, plan, port, link, end).failed
    ensures Count(VisitLinks(c, s, plan, port, link, end).roleCount, role)
            == Count(s.roleCount, role) + if plan.role.Some? && plan.role.value.name == role then end - link else 0
    decreases end - link
  {
    if link < end {
      var r := VisitLink(c, s, plan, port, link);
      LinkGrows(c, s, plan, port, link);
      if r.failed { FailedEnds(c, r, plan, port, link + 1, end); }
      LinkNumbers(c, s, plan, port, link, role);
      LinksNumber(c, r, plan, port, link + 1, end, role);
    }
  }

  /** A link on step opens the VM with the next number. */
  lemma OpenedVmNumber(c: Config, s: State, plan: Plan, port: int, link: nat, role: Role, number: nat, r: State)
    requires s.start <= link && !s.failed && r == VisitLink(c, s, plan, port, link) && !r.failed && !c.continuousVms
    requires plan.role == Some(role) && (link - s.start) % plan.step == 0 && !InPorts(port, c.skipPorts)
    requires number == Count(s.roleCount, role.name) + 1
    ensures NumberAt(r.vms, link, role.name, number)
  {
    MadeNumber(s, plan.kind, [link], role, link, role.numLags, r);
    assert r.vms[|s.vms|].ipOffset == link && r.vms[|s.vms|].role == role.name && r.vms[|s.vms|].nameId == number;
  }

  /** The VM of a link gets the number of that link. */
  lemma {:induction false} LinkVmNumber(c: Config, s: State, plan: Plan, port: int, link: nat, end: nat, id: nat,
                                        role: Role, number: nat)
    requires s.start <= link <= id < end && !s.failed && !c.continuousVms
    requires !VisitLinks(c, s, plan, port, link, end).failed
    requires plan.role == Some(role) && (id - s.start) % plan.step == 0 && !InPorts(port, c.skipPorts)
    requires number == Count(s.roleCount, role.name) + (id - link) + 1
    ensures NumberAt(VisitLinks(c, s, plan, port, link, end).vms, id, role.name, number)
    decreases end - link
  {
    var r, next := VisitLink(c, s, plan, port, link), link + 1;
    var all := VisitLinks(c, r, plan, port, next, end);
    assert all == VisitLinks(c, s, plan, port, link, end);
    LinkGrows(c, s, plan, port, link);
    if r.failed { FailedEnds(c, r, plan, port, next, end); }
    if id == link {
      OpenedVmNumber(c, s, plan, port, link, role, number, r);
      LinksGrow(c, r, plan, port, next, end);
      NumberStays(r.vms, all.vms, id, role.name, number);
    } else {
      LinkNumbers(c, s, plan, port, link, role.name);
      LinkVmNumber(c, r, plan, port, next, end, id, role, number);
    }
  }

  // ---- ports ----

  lemma LagNumbers(c: Config, s: State, plan: Plan, lag: set<int>, role: string)
    requires !s.failed && !VisitLag(c, s, plan, lag).failed
    ensures plan.role.Some?
    ensures Count(VisitLag(c, s, plan, lag).roleCount, role)
            == Count(s.roleCount, role) + if plan.role.value.name == role then 1 else 0
    ensures NumberAt(VisitLag(c, s, plan, lag).vms, s.start, plan.role.value.name,
                     Count(s.roleCount, plan.role.value.name) + 1)
  {
    var count := |lag| * s.breakout.value;
    var v := MakeVm(s, plan.kind, Ids(s.start, count), plan.role.value, s.start, count);
    MadeNumber(s, plan.kind, Ids(s.start, count), plan.role.value, s.start, count, v);
    assert v.vms[|s.vms|].ipOffset == s.start;
  }

  lemma PortNumbers(c: Config, s: State, port: int, role: string)
    requires !s.failed && !c.continuousVms && !VisitPort(c, s, port).failed
    ensures Count(VisitPort(c, s, port).roleCount, role) == Count(s.roleCount, role) + NumbersOf(c, s, port, role)
  {
    var plan := PlanOf(c, port).value;
    var t := if plan.kind.Up? || plan.kind.Down? then s.(breakout := Some(plan.links)) else s;
    var lag := FindLag(c.lagEntries, port);
    if port in t.lagged {
      assert VisitPort(c, s, port) == t;
    } else if lag.Some? {
      assert VisitPort(c, s, port) == VisitLag(c, t, plan, lag.value);
      LagNumbers(c, t, plan, lag.value, role);
    } else {
      assert VisitPort(c, s, port) == VisitPlain(c, t, plan, port);
      var end := t.start + plan.links;
      LinksNumber(c, t, plan, port, t.start, end, role);
    }
  }

  lemma RunLast(c: Config, g: Globals, ports: seq<int>)
    requires ports != []
    ensures Run(c, g, ports) == VisitPort(c, Run(c, g, ports[..|ports| - 1]), ports[|ports| - 1])
  {
    var init, last := ports[..|ports| - 1], ports[|ports| - 1];
    assert ports == init + [last];
    PortsSplit(c, Init(g), init, [last]);
    assert [last][1..] == [];
    assert VisitPorts(c, Run(c, g, init), [last]) == VisitPort(c, Run(c, g, init), last);
  }

  /** Without continuous names, the counter of a role is the number of its plain links and LAGs so far. */
  lemma {:induction false} RunNumbers(c: Config, g: Globals, ports: seq<int>, role: string)
    requires !c.continuousVms && !Run(c, g, ports).failed
    ensures Count(Run(c, g, ports).roleCount, role) == Numbered(c, g, ports, role)
    decreases |ports|
  {
    if ports != [] {
      var init, last := ports[..|ports| - 1], ports[|ports| - 1];
      RunLast(c, g, ports);
      RunNumbers(c, g, init, role);
      PortNumbers(c, Run(c, g, init), last, role);
    }
  }

  lemma RunAround(c: Config, g: Globals, before: seq<int>, port: int, after: seq<int>)
    requires !Run(c, g, before + [port] + after).failed
    ensures var s := Run(c, g, before);
            var r := VisitPort(c, s, port);
            !s.failed && !r.failed && r.vms <= Run(c, g, before + [port] + after).vms
  {
    var s := Run(c, g, before);
    var r := VisitPort(c, s, port);
    PortsSplit(c, Init(g), before + [port], after);
    PortsSplit(c, Init(g), before, [port]);
    assert [port][1..] == [];
    assert VisitPorts(c, s, [port]) == r;
    if r.failed { FailedRuns(c, r, after); }
    PortsGrow(c, r, after);
  }

  /** Ip offsets are unique, so the number at a link id is the VM's. */
  lemma NumberIs(c: Config, g: Globals, ports: seq<int>, i: nat, role: string, number: nat)
    requires g.Legal() && !Run(c, g, ports).failed && i < |Run(c, g, ports).vms|
    requires NumberAt(Run(c, g, ports).vms, Run(c, g, ports).vms[i].ipOffset, role, number)
    ensures Run(c, g, ports).vms[i].role == role && Run(c, g, ports).vms[i].nameId == number
  {
    var vms := Run(c, g, ports).vms;
    var k :| 0 <= k < |vms| && vms[k].ipOffset == vms[i].ipOffset && vms[k].role == role && vms[k].nameId == number;
    if i < k { VmsNumbered(c, g, ports, i, k); }
    if k < i { VmsNumbered(c, g, ports, k, i); }
  }

  /** The number that the port gives at a link id is the number of the VM that the finished run has there. */
  lemma NumberLasts(g: Globals, c: Config, before: seq<int>, port: int, after: seq<int>, i: nat, role: string,
                    number: nat)
    requires g.Legal() && !Run(c, g, before + [port] + after).failed && i < |Run(c, g, before + [port] + after).vms|
    requires var id := Run(c, g, before + [port] + after).vms[i].ipOffset;
             NumberAt(VisitPort(c, Run(c, g, before), port).vms, id, role, number)
    ensures var vm := Run(c, g, before + [port] + after).vms[i]; vm.role == role && vm.nameId == number
  {
    var ports := before + [port] + after;
    RunAround(c, g, before, port, after);
    NumberStays(VisitPort(c, Run(c, g, before), port).vms, Run(c, g, ports).vms, Run(c, g, ports).vms[i].ipOffset, role,
                number);
    NumberIs(c, g, ports, i, role, number);
  }

  // ---- the promises ----

  lemma PlainVmNumber(c: Config, s: State, port: int, id: nat, role: Role, number: nat)
    requires !c.continuousVms && OpensPlain(c, s, port) && !VisitPort(c, s, port).failed
    requires PlanOf(c, port).value.role == Some(role) && !InPorts(port, c.skipPorts)
    requires s.start <= id < s.start + PlanOf(c, port).value.links && (id - s.start) % PlanOf(c, port).value.step == 0
    requires number == Count(s.roleCount, role.name) + (id - s.start) + 1
    ensures NumberAt(VisitPort(c, s, port).vms, id, role.name, number)
  {
    var plan := PlanOf(c, port).value;
    var t := if plan.kind.Up? || plan.kind.Down? then s.(breakout := Some(plan.links)) else s;
    assert VisitPort(c, s, port) == VisitPlain(c, t, plan, port);
    var end := t.start + plan.links;
    LinkVmNumber(c, t, plan, port, t.start, end, id, role, number);
  }

  lemma PlainNumberFrom(c: Config, g: Globals, before: seq<int>, port: int, id: nat, role: Role, number: nat)
    requires !c.continuousVms && OpensPlain(c, Run(c, g, before), port) && !VisitPort(c, Run(c, g, before), port).failed
    requires PlanOf(c, port).value.role == Some(role) && !InPorts(port, c.skipPorts)
    requires var first, plan := Run(c, g, before).start, PlanOf(c, port).value;
             first <= id < first + plan.links && (id - first) % plan.step == 0
    requires number == Numbered(c, g, before, role.name) + (id - Run(c, g, before).start) + 1
    ensures NumberAt(VisitPort(c, Run(c, g, before), port).vms, id, role.name, number)
  {
    RunNumbers(c, g, before, role.name);
    PlainVmNumber(c, Run(c, g, before), port, id, role, number);
  }

  /** The VM at a link of a plain port: the link opens one, of the port's role. */
  lemma PlainVmOpened(g: Globals, c: Config, before: seq<int>, port: int, after: seq<int>, i: nat)
    requires g.Legal() && !Run(c, g, before + [port] + after).failed
    requires OpensPlain(c, Run(c, g, before), port) && i < |Run(c, g, before + [port] + after).vms|
    requires var first := Run(c, g, before).start;
             first <= Run(c, g, before + [port] + after).vms[i].ipOffset < first + PlanOf(c, port).value.links
    ensures var plan, id := PlanOf(c, port).value, Run(c, g, before + [port] + after).vms[i].ipOffset;
            plan.role.Some? && !InPorts(port, c.skipPorts) && (id - Run(c, g, before).start) % plan.step == 0
  {
    var vms := Run(c, g, before + [port] + after).vms;
    assert VmAt(vms, vms[i].ipOffset);
    LinksServedExactly(g, c, before, port, after, vms[i].ipOffset);
  }

  /**
   Without continuous names: the number of a VM on a plain port is the number of plain link ids of its role up to
   and including its own, plus the role's LAGs before it. Links that open no VM are counted too.
   */
  lemma NumberOfPlainVm(g: Globals, c: Config, before: seq<int>, port: int, after: seq<int>, i: nat)
    requires g.Legal() && !Run(c, g, before + [port] + after).failed && !c.continuousVms
    requires OpensPlain(c, Run(c, g, before), port) && i < |Run(c, g, before + [port] + after).vms|
    requires var first := Run(c, g, before).start;
             first <= Run(c, g, before + [port] + after).vms[i].ipOffset < first + PlanOf(c, port).value.links
    ensures var vm, first := Run(c, g, before + [port] + after).vms[i], Run(c, g, before).start;
            && PlanOf(c, port).value.role.Some? && vm.role == PlanOf(c, port).value.role.value.name
            && vm.nameId == Numbered(c, g, before, vm.role) + (vm.ipOffset - first) + 1
  {
    PlainVmOpened(g, c, before, port, after, i);
    var id, role := Run(c, g, before + [port] + after).vms[i].ipOffset, PlanOf(c, port).value.role.value;
    var number := Numbered(c, g, before, role.name) + (id - Run(c, g, before).start) + 1;
    NumberOfVmAt(g, c, before, port, after, i, id, role, number);
  }

  lemma NumberOfVmAt(g: Globals, c: Config, before: seq<int>, port: int, after: seq<int>, i: nat, id: nat, role: Role,
                     number: nat)
    requires g.Legal() && !Run(c, g, before + [port] + after).failed && !c.continuousVms
    requires OpensPlain(c, Run(c, g, before), port) && i < |Run(c, g, before + [port] + after).vms|
    requires id == Run(c, g, before + [port] + after).vms[i].ipOffset
    requires PlanOf(c, port).value.role == Some(role) && !InPorts(port, c.skipPorts)
    requires var first, plan := Run(c, g, before).start, PlanOf(c, port).value;
             first <= id < first + plan.links && (id - first) % plan.step == 0
    requires number == Numbered(c, g, before, role.name) + (id - Run(c, g, before).start) + 1
    ensures var vm := Run(c, g, before + [port] + after).vms[i]; vm.role == role.name && vm.nameId == number
  {
    RunAround(c, g, before, port, after);
    PlainNumberFrom(c, g, before, port, id, role, number);
    NumberLasts(g, c, before, port, after, i, role.name, number);
  }

  lemma LagVmNumber(c: Config, s: State, port: int)
    requires OpensLag(c, s, port) && !VisitPort(c, s, port).failed
    ensures PlanOf(c, port).value.role.Some?
    ensures var role := PlanOf(c, port).value.role.value.name;
            NumberAt(VisitPort(c, s, port).vms, s.start, role, Count(s.roleCount, role) + 1)
  {
    var plan, lag := PlanOf(c, port).value, FindLag(c.lagEntries, port).value;
    var t := if plan.kind.Up? || plan.kind.Down? then s.(breakout := Some(plan.links)) else s;
    assert VisitPort(c, s, port) == VisitLag(c, t, plan, lag);
    LagNumbers(c, t, plan, lag, "");
  }

  /** The VM of a LAG counts as one. */
  lemma NumberOfLagVm(g: Globals, c: Config, before: seq<int>, port: int, after: seq<int>, i: nat)
    requires g.Legal() && !Run(c, g, before + [port] + after).failed && !c.continuousVms
    requires OpensLag(c, Run(c, g, before), port) && i < |Run(c, g, before + [port] + after).vms|
    requires Run(c, g, before + [port] + after).vms[i].ipOffset == Run(c, g, before).start
    ensures var vm := Run(c, g, before + [port] + after).vms[i];
            && PlanOf(c, port).value.role.Some? && vm.role == PlanOf(c, port).value.role.value.name
            && vm.nameId == Numbered(c, g, before, vm.role) + 1
  {
    var s := Run(c, g, before);
    RunAround(c, g, before, port, after);
    LagVmNumber(c, s, port);
    var role := PlanOf(c, port).value.role.value.name;
    RunNumbers(c, g, before, role);
    NumberLasts(g, c, before, port, after, i, role, Count(s.roleCount, role) + 1);
  }

  // ---- continuous names ----

  /** Counters and numbers are the ranks of the VMs in their roles. */
  ghost predicate Continuous(s: State) {
    && (forall role :: Count(s.roleCount, role) == OfRole(s.vms, role))
    && (forall i :: 0 <= i < |s.vms| ==> s.vms[i].nameId == OfRole(s.vms[..i], s.vms[i].role) + 1)
  }

  lemma MakeVmContinues(s: State, kind: LinkType, links: seq<nat>, role: Role, ipOffset: nat, numLags: nat, r: State)
    requires r == MakeVm(s, kind, links, role, ipOffset, numLags) && !s.failed && !r.failed && Continuous(s)
    ensures Continuous(r)
  {
    MadeNumber(s, kind, links, role, ipOffset, numLags, r);
    var vm := r.vms[|s.vms|];
    assert r.vms == s.vms + [vm];
    forall name ensures Count(r.roleCount, name) == OfRole(r.vms, name) {
      OneMore(s.vms, vm, name);
    }
    forall i | 0 <= i < |r.vms| ensures r.vms[i].nameId == OfRole(r.vms[..i], r.vms[i].role) + 1 {
      assert r.vms[..i] == s.vms[..i];
      if i == |s.vms| { assert s.vms[..i] == s.vms; }
    }
  }

  lemma SameContinues(s: State, r: State)
    requires Continuous(s) && r.vms == s.vms && r.roleCount == s.roleCount
    ensures Continuous(r)
  {
  }

  lemma LinkContinues(c: Config, s: State, plan: Plan, port: int, link: nat, r: State)
    requires s.start <= link && !s.failed && c.continuousVms && Continuous(s) && r == VisitLink(c, s, plan, port, link)
    ensures r.start == s.start && (r.failed || Continuous(r))
  {
    LinkGrows(c, s, plan, port, link);
    if r.failed {
    } else if plan.role.Some? && (link - s.start) % plan.step == 0 && !InPorts(port, c.skipPorts) {
      MakeVmContinues(s, plan.kind, [link], plan.role.value, link, plan.role.value.numLags, r);
    } else {
      SameContinues(s, r);
    }
  }

  lemma {:induction false} LinksContinue(c: Config, s: State, plan: Plan, port: int, link: nat, end: nat)
    requires s.start <= link <= end && c.continuousVms && (s.failed || Continuous(s))
    ensures var r := VisitLinks(c, s, plan, port, link, end); r.failed || Continuous(r)
    decreases end - link
  {
    if link < end {
      var r := VisitLink(c, s, plan, port, link);
      if !s.failed { LinkContinues(c, s, plan, port, link, r); }
      LinksContinue(c, r, plan, port, link + 1, end);
    }
  }

  lemma PortContinues(c: Config, s: State, port: int)
    requires c.continuousVms && (s.failed || Continuous(s))
    ensures var r := VisitPort(c, s, port); r.failed || Continuous(r)
  {
    if !s.failed && PlanOf(c, port).Some? {
      var plan := PlanOf(c, port).value;
      var t := if plan.kind.Up? || plan.kind.Down? then s.(breakout := Some(plan.links)) else s;
      SameContinues(s, t);
      var lag := FindLag(c.lagEntries, port);
      if port in t.lagged {
        assert VisitPort(c, s, port) == t;
      } else if lag.Some? {
        assert VisitPort(c, s, port) == VisitLag(c, t, plan, lag.value);
        LagContinues(c, t, plan, lag.value);
      } else {
        assert VisitPort(c, s, port) == VisitPlain(c, t, plan, port);
        PlainContinues(c, t, plan, port);
      }
    }
  }

  lemma LagContinues(c: Config, s: State, plan: Plan, lag: set<int>)
    requires !s.failed && Continuous(s)
    ensures var r := VisitLag(c, s, plan, lag); r.failed || Continuous(r)
  {
    var r := VisitLag(c, s, plan, lag);
    if !r.failed {
      var count := |lag| * s.breakout.value;
      var v := MakeVm(s, plan.kind, Ids(s.start, count), plan.role.value, s.start, count);
      MakeVmContinues(s, plan.kind, Ids(s.start, count), plan.role.value, s.start, count, v);
      SameContinues(v, r);
    }
  }

  lemma PlainContinues(c: Config, s: State, plan: Plan, port: int)
    requires c.continuousVms && Continuous(s)
    ensures var r := VisitPlain(c, s, plan, port); r.failed || Continuous(r)
  {
    var end := s.start + plan.links;
    LinksContinue(c, s, plan, port, s.start, end);
    var u := VisitLinks(c, s, plan, port, s.start, end);
    if !u.failed { SameContinues(u, u.(start := end)); }
  }

  lemma {:induction false} PortsContinue(c: Config, s: State, ports: seq<int>)
    requires c.continuousVms && (s.failed || Continuous(s))
    ensures var r := VisitPorts(c, s, ports); r.failed || Continuous(r)
    decreases |ports|
  {
    if ports != [] {
      PortContinues(c, s, ports[0]);
      PortsContinue(c, VisitPort(c, s, ports[0]), ports[1..]);
    }
  }

  /** With continuous names: the number of a VM is one plus the number of earlier VMs of its role. */
  lemma ContinuousNumbers(c: Config, g: Globals, ports: seq<int>, i: nat)
    requires c.continuousVms && !Run(c, g, ports).failed && i < |Run(c, g, ports).vms|
    ensures var vms := Run(c, g, ports).vms; vms[i].nameId == 1 + OfRole(vms[..i], vms[i].role)
  {
    PortsContinue(c, Init(g), ports);
    assert Continuous(Run(c, g, ports));
  }
}
