/** The ASNs that ansible/generate_topo.py gives to its VMs, counted in the global role configuration. */
module TopoAsns {
  import opened Common
  import opened Topo
  import opened TopoProofs

  function RoleOf(c: Config, kind: LinkType): Option<Role> {
    match kind
    case Up => c.uplink
    case Peer => c.peer
    case Fabric => c.fabric
    case Down => c.downlink
  }

  /** The role configurations of one DUT role carry different names. */
  ghost predicate RolesDiffer(c: Config) {
    forall k, l :: k != l && RoleOf(c, k).Some? && RoleOf(c, l).Some? ==>
      RoleOf(c, k).value.name != RoleOf(c, l).value.name
  }

  /** How many of the VMs have the role. */
  function OfRole(vms: seq<Vm>, role: string): nat {
    if vms == [] then 0
    else OfRole(vms[..|vms| - 1], role) + if vms[|vms| - 1].role == role then 1 else 0
  }

  /** The counter of a role after n of its VMs. */
  function After(from: Asns, n: nat, role: Role): Asns {
    from.Plus(n * role.asnIncrement)
  }

  /** A role's counter stands behind its VMs, and each of them got the counter's value as it was made. */
  ghost predicate Counted(from: Asns, now: Asns, vms: seq<Vm>, role: Role) {
    && now == After(from, OfRole(vms, role.name), role)
    && forall i :: 0 <= i < |vms| && vms[i].role == role.name ==>
         vms[i].asns == After(from, OfRole(vms[..i + 1], role.name), role)
  }

  ghost predicate AllCounted(c: Config, g: Globals, s: State) {
    forall kind :: RoleOf(c, kind).Some? ==>
      Counted(g.asns.Of(kind), s.asns.Of(kind), s.vms, RoleOf(c, kind).value)
  }

  // ---- one VM ----

  lemma OneMore(vms: seq<Vm>, vm: Vm, role: string)
    ensures OfRole(vms + [vm], role) == OfRole(vms, role) + if vm.role == role then 1 else 0
  {
    assert (vms + [vm])[..|vms|] == vms;
  }

  lemma AfterNext(from: Asns, n: nat, role: Role)
    ensures After(from, n + 1, role) == After(from, n, role).Plus(role.asnIncrement)
  {
    assert (n + 1) * role.asnIncrement == n * role.asnIncrement + role.asnIncrement;
  }

  lemma PrefixOf(vms: seq<Vm>, vm: Vm, i: nat)
    requires i < |vms|
    ensures (vms + [vm])[i] == vms[i] && (vms + [vm])[..i + 1] == vms[..i + 1]
  {
  }

  /** A VM of another role. */
  lemma OtherCounted(from: Asns, now: Asns, vms: seq<Vm>, role: Role, vm: Vm)
    requires Counted(from, now, vms, role) && vm.role != role.name
    ensures Counted(from, now, vms + [vm], role)
  {
    OneMore(vms, vm, role.name);
    var all := vms + [vm];
    forall i | 0 <= i < |all| && all[i].role == role.name
      ensures all[i].asns == After(from, OfRole(all[..i + 1], role.name), role)
    {
      PrefixOf(vms, vm, i);
    }
  }

  /** A VM of this role, made after its counter was advanced. */
  lemma NextCounted(from: Asns, now: Asns, vms: seq<Vm>, role: Role, vm: Vm)
    requires Counted(from, now, vms, role) && vm.role == role.name && vm.asns == now.Plus(role.asnIncrement)
    ensures Counted(from, vm.asns, vms + [vm], role)
  {
    OneMore(vms, vm, role.name);
    AfterNext(from, OfRole(vms, role.name), role);
    var all := vms + [vm];
    forall i | 0 <= i < |all| && all[i].role == role.name
      ensures all[i].asns == After(from, OfRole(all[..i + 1], role.name), role)
    {
      if i < |vms| {
        PrefixOf(vms, vm, i);
      } else {
        assert all[..i + 1] == all;
      }
    }
  }

  lemma RaisedOf(asns: Counters, made: LinkType, step: int, kind: LinkType)
    ensures asns.Raised(made, step).Of(kind) == if kind == made then asns.Of(kind).Plus(step) else asns.Of(kind)
  {
  }

  /** The VM that is made last, and the counters behind it. */
  lemma MadeLast(s: State, kind: LinkType, links: seq<nat>, role: Role, ipOffset: nat, numLags: nat, r: State)
    requires r == MakeVm(s, kind, links, role, ipOffset, numLags) && !s.failed && !r.failed
    ensures r.asns == s.asns.Raised(kind, role.asnIncrement)
    ensures |r.vms| == |s.vms| + 1 && r.vms == s.vms + [r.vms[|s.vms|]]
    ensures r.vms[|s.vms|].role == role.name && r.vms[|s.vms|].asns == r.asns.Of(kind)
  {
  }

  lemma MakeVmCounts(c: Config, g: Globals, s: State, kind: LinkType, links: seq<nat>, role: Role, ipOffset: nat,
                     numLags: nat, r: State)
    requires RolesDiffer(c) && RoleOf(c, kind) == Some(role) && AllCounted(c, g, s) && !s.failed
    requires r == MakeVm(s, kind, links, role, ipOffset, numLags)
    ensures r.failed || AllCounted(c, g, r)
  {
    if !r.failed {
      MadeLast(s, kind, links, role, ipOffset, numLags, r);
      var vm := r.vms[|s.vms|];
      forall k | RoleOf(c, k).Some? ensures Counted(g.asns.Of(k), r.asns.Of(k), r.vms, RoleOf(c, k).value) {
        RaisedOf(s.asns, kind, role.asnIncrement, k);
        if k == kind {
          NextCounted(g.asns.Of(k), s.asns.Of(k), s.vms, role, vm);
        } else {
          OtherCounted(g.asns.Of(k), s.asns.Of(k), s.vms, RoleOf(c, k).value, vm);
        }
      }
    }
  }

  // ---- the loops ----

  /** Nothing that counts has changed. */
  lemma SameCounts(c: Config, g: Globals, s: State, r: State)
    requires AllCounted(c, g, s) && r.vms == s.vms && r.asns == s.asns
    ensures AllCounted(c, g, r)
  {
  }

  lemma LinkCounts(c: Config, g: Globals, s: State, plan: Plan, port: int, link: nat, r: State)
    requires RolesDiffer(c) && plan.role == RoleOf(c, plan.kind) && s.start <= link && !s.failed
    requires AllCounted(c, g, s) && r == VisitLink(c, s, plan, port, link)
    ensures r.start == s.start && (r.failed || AllCounted(c, g, r))
  {
    VisitLinkCases(c, s, plan, port, link);
    if r.vms == s.vms && r.asns == s.asns {
      SameCounts(c, g, s, r);
    } else {
      MakeVmCounts(c, g, s, plan.kind, [link], plan.role.value, link, plan.role.value.numLags, r);
    }
  }

  lemma {:induction false} LinksCount(c: Config, g: Globals, s: State, plan: Plan, port: int, link: nat, end: nat)
    requires RolesDiffer(c) && plan.role == RoleOf(c, plan.kind) && s.start <= link <= end
    requires s.failed || AllCounted(c, g, s)
    ensures var r := VisitLinks(c, s, plan, port, link, end); r.failed || AllCounted(c, g, r)
    decreases end - link
  {
    if link < end {
      var r := VisitLink(c, s, plan, port, link);
      if !s.failed { LinkCounts(c, g, s, plan, port, link, r); }
      LinksCount(c, g, r, plan, port, link + 1, end);
    }
  }

  lemma PlainCounts(c: Config, g: Globals, s: State, plan: Plan, port: int)
    requires RolesDiffer(c) && plan.role == RoleOf(c, plan.kind) && AllCounted(c, g, s)
    ensures var r := VisitPlain(c, s, plan, port); r.failed || AllCounted(c, g, r)
  {
    var end := s.start + plan.links;
    LinksCount(c, g, s, plan, port, s.start, end);
    var u := VisitLinks(c, s, plan, port, s.start, end);
    if !u.failed { SameCounts(c, g, u, u.(start := end)); }
  }

  lemma LagCounts(c: Config, g: Globals, s: State, plan: Plan, lag: set<int>)
    requires RolesDiffer(c) && plan.role == RoleOf(c, plan.kind) && AllCounted(c, g, s) && !s.failed
    ensures var r := VisitLag(c, s, plan, lag); r.failed || AllCounted(c, g, r)
  {
    if plan.role.Some? && s.breakout.Some? {
      var count := |lag| * s.breakout.value;
      var v := MakeVm(s, plan.kind, Ids(s.start, count), plan.role.value, s.start, count);
      MakeVmCounts(c, g, s, plan.kind, Ids(s.start, count), plan.role.value, s.start, count, v);
      if !v.failed { SameCounts(c, g, v, VisitLag(c, s, plan, lag)); }
    }
  }

  lemma PlanHasRole(c: Config, port: int)
    ensures PlanOf(c, port).Some? ==> PlanOf(c, port).value.role == RoleOf(c, PlanOf(c, port).value.kind)
  {
  }

  lemma PortCounts(c: Config, g: Globals, s: State, port: int)
    requires RolesDiffer(c) && (s.failed || AllCounted(c, g, s))
    ensures var r := VisitPort(c, s, port); r.failed || AllCounted(c, g, r)
  {
    PlanHasRole(c, port);
    if !s.failed && PlanOf(c, port).Some? {
      var plan := PlanOf(c, port).value;
      var t := if plan.kind.Up? || plan.kind.Down? then s.(breakout := Some(plan.links)) else s;
      SameCounts(c, g, s, t);
      var lag := FindLag(c.lagEntries, port);
      if port in t.lagged {
        assert VisitPort(c, s, port) == t;
      } else if lag.Some? {
        assert VisitPort(c, s, port) == VisitLag(c, t, plan, lag.value);
        LagCounts(c, g, t, plan, lag.value);
      } else {
        assert VisitPort(c, s, port) == VisitPlain(c, t, plan, port);
        PlainCounts(c, g, t, plan, port);
      }
    }
  }

  lemma {:induction false} PortsCount(c: Config, g: Globals, s: State, ports: seq<int>)
    requires RolesDiffer(c) && (s.failed || AllCounted(c, g, s))
    ensures var r := VisitPorts(c, s, ports); r.failed || AllCounted(c, g, r)
    decreases |ports|
  {
    if ports != [] {
      PortCounts(c, g, s, ports[0]);
      PortsCount(c, g, VisitPort(c, s, ports[0]), ports[1..]);
    }
  }

  // ---- the promises ----

  /**
   The n-th VM of a role carries the role's ASNs plus n increments, counted from what earlier calls left, and the
   call leaves the counters behind its last VM.
   */
  lemma AsnsByPosition(c: Config, g: Globals, ports: seq<int>, kind: LinkType)
    requires RolesDiffer(c) && RoleOf(c, kind).Some? && !Run(c, g, ports).failed
    ensures var s, role := Run(c, g, ports), RoleOf(c, kind).value;
            && s.asns.Of(kind) == After(g.asns.Of(kind), OfRole(s.vms, role.name), role)
            && forall i :: 0 <= i < |s.vms| && s.vms[i].role == role.name ==>
                 s.vms[i].asns == After(g.asns.Of(kind), OfRole(s.vms[..i + 1], role.name), role)
  {
    PortsCount(c, g, Init(g), ports);
    assert AllCounted(c, g, Run(c, g, ports));
  }

  lemma {:induction false} RankGrows(vms: seq<Vm>, role: string, i: nat, j: nat)
    requires i <= j < |vms| && vms[j].role == role
    ensures i < j ==> OfRole(vms[..i + 1], role) < OfRole(vms[..j + 1], role)
    ensures OfRole(vms[..j + 1], role) > 0
  {
    var upTo := vms[..j + 1];
    assert upTo[..|upTo| - 1] == vms[..j] && upTo[j] == vms[j];
    if i < j { PrefixCounts(vms, role, i + 1, j); }
  }

  lemma {:induction false} PrefixCounts(vms: seq<Vm>, role: string, i: nat, j: nat)
    requires i <= j <= |vms|
    ensures OfRole(vms[..i], role) <= OfRole(vms[..j], role)
    decreases j - i
  {
    if i < j {
      assert vms[..j][..j - 1] == vms[..j - 1];
      PrefixCounts(vms, role, i, j - 1);
    }
  }

  lemma AfterDiffers(from: Asns, m: nat, n: nat, role: Role)
    requires m < n
    ensures After(from, m, role).v4 == After(from, n, role).v4 <==> role.asnIncrement == 0
    ensures After(from, m, role).v6 == After(from, n, role).v6 <==> role.asnIncrement == 0
  {
    var k := role.asnIncrement;
    assert n * k - m * k == (n - m) * k;
    if k > 0 { MulMonotone(1, n - m, k); }
    if k < 0 { MulMonotone(1, n - m, -k); }
  }

  /** Two VMs of one role share an ASN exactly when the role's increment is 0, as it is for uplinks. */
  lemma AsnsDistinctExactly(c: Config, g: Globals, ports: seq<int>, kind: LinkType, i: nat, j: nat)
    requires RolesDiffer(c) && RoleOf(c, kind).Some? && !Run(c, g, ports).failed
    requires i < j < |Run(c, g, ports).vms|
    requires Run(c, g, ports).vms[i].role == Run(c, g, ports).vms[j].role == RoleOf(c, kind).value.name
    ensures var vms := Run(c, g, ports).vms;
            && (vms[i].asns.v4 == vms[j].asns.v4 <==> RoleOf(c, kind).value.asnIncrement == 0)
            && (vms[i].asns.v6 == vms[j].asns.v6 <==> RoleOf(c, kind).value.asnIncrement == 0)
  {
    var vms, role := Run(c, g, ports).vms, RoleOf(c, kind).value;
    AsnsByPosition(c, g, ports, kind);
    RankGrows(vms, role.name, i, j);
    AfterDiffers(g.asns.Of(kind), OfRole(vms[..i + 1], role.name), OfRole(vms[..j + 1], role.name), role);
  }

  lemma AfterTwice(from: Asns, m: nat, n: nat, role: Role)
    ensures After(After(from, m, role), n, role) == After(from, m + n, role)
  {
    assert (m + n) * role.asnIncrement == m * role.asnIncrement + n * role.asnIncrement;
  }

  /**
   A second call in the same process goes on counting: its VMs of a role share no ASN with those of the first call,
   unless the increment is 0.
   */
  lemma SecondCallContinues(c: Config, g: Globals, ports: seq<int>, more: seq<int>, kind: LinkType, i: nat, j: nat)
    requires RolesDiffer(c) && RoleOf(c, kind).Some? && !Run(c, g, ports).failed
    requires var first := Run(c, g, ports);
             var h := Globals(first.off4, first.off6, first.asns);
             && !Run(c, h, more).failed && i < |first.vms| && j < |Run(c, h, more).vms|
             && first.vms[i].role == Run(c, h, more).vms[j].role == RoleOf(c, kind).value.name
    ensures var first := Run(c, g, ports);
            var second := Run(c, Globals(first.off4, first.off6, first.asns), more);
            first.vms[i].asns.v4 == second.vms[j].asns.v4 <==> RoleOf(c, kind).value.asnIncrement == 0
  {
    var first, role := Run(c, g, ports), RoleOf(c, kind).value;
    var h := Globals(first.off4, first.off6, first.asns);
    var second := Run(c, h, more);
    AsnsByPosition(c, g, ports, kind);
    AsnsByPosition(c, h, more, kind);
    var m, total := OfRole(first.vms[..i + 1], role.name), OfRole(first.vms, role.name);
    var n := OfRole(second.vms[..j + 1], role.name);
    assert first.vms[..|first.vms|] == first.vms;
    PrefixCounts(first.vms, role.name, i + 1, |first.vms|);
    RankGrows(second.vms, role.name, j, j);
    AfterTwice(g.asns.Of(kind), total, n, role);
    AfterDiffers(g.asns.Of(kind), m, total + n, role);
  }
}
