/** What the topology generator guarantees about link ids, names and addresses. */
module TopoProofs {
  import opened Common
  import opened Topo

  // ---- the invariant ----

  /** VMs stand at their offset; their links are consecutive, start at the ip offset and ascend over the list. */
  ghost predicate VmsOrdered(vms: seq<Vm>, bound: nat) {
    && (forall i :: 0 <= i < |vms| ==>
          && vms[i].offset == i && |vms[i].links| > 0
          && vms[i].links == Ids(vms[i].ipOffset, |vms[i].links|)
          && vms[i].ipOffset + |vms[i].links| <= bound)
    && (forall i, j :: 0 <= i < j < |vms| ==> vms[i].ipOffset + |vms[i].links| <= vms[j].ipOffset)
  }

  ghost predicate NamesOrdered(vms: seq<Vm>, roleCount: map<string, nat>) {
    && (forall i :: 0 <= i < |vms| ==> vms[i].nameId <= Count(roleCount, vms[i].role))
    && (forall i, j :: 0 <= i < j < |vms| && vms[i].role == vms[j].role ==> vms[i].nameId < vms[j].nameId)
  }

  /** The address a backplane address was wrapped from. */
  function Unwrap4(a: int): int {
    if a < BP4_START then a - BP4_LOWER + 1 + BP4_UPPER else a
  }

  /**
   Unwrapped addresses ascend and keep within reach of what the globals allow next; the PTF's own address is
   handed out only where the run began with the global set.
   */
  ghost predicate Backplanes(g: Globals, vms: seq<Vm>, off4: nat, off6: nat, bound: nat) {
    && g.off4 <= off4 <= 1 && g.off6 <= off6 <= 1
    && (off4 == 1 ==> g.off4 == 1 || bound >= 253) && (off6 == 1 ==> g.off6 == 1 || bound >= 254)
    && (forall i :: 0 <= i < |vms| ==>
          && BP4_LOWER <= vms[i].bp4 <= BP4_UPPER && vms[i].bp4 != BP4_START
          && (vms[i].bp4 == BP4_PTF <==> g.off4 == 1 && vms[i].ipOffset == 251)
          && Unwrap4(vms[i].bp4) <= BP4_START + bound + off4
          && BP6_START < vms[i].bp6 <= BP6_START + bound + off6
          && (vms[i].bp6 == BP6_PTF <==> g.off6 == 1 && vms[i].ipOffset == 252))
    && (forall i, j :: 0 <= i < j < |vms| ==> Unwrap4(vms[i].bp4) < Unwrap4(vms[j].bp4) && vms[i].bp6 < vms[j].bp6)
  }

  ghost predicate Ascending(xs: seq<nat>, bound: nat) {
    && (forall i :: 0 <= i < |xs| ==> xs[i] < bound)
    && (forall i, j :: 0 <= i < j < |xs| ==> xs[i] < xs[j])
  }

  ghost predicate HostsOrdered(downs: seq<Iface>, bound: nat) {
    && (forall i :: 0 <= i < |downs| ==> downs[i].id < bound)
    && (forall i, j :: 0 <= i < j < |downs| ==> downs[i].id < downs[j].id)
  }

  ghost predicate VmHas(vms: seq<Vm>, id: nat) {
    exists i :: 0 <= i < |vms| && id in vms[i].links
  }

  /** VM links, enabled and disabled host interfaces never share a link id. */
  ghost predicate Exclusive(vms: seq<Vm>, downs: seq<Iface>, disabled: seq<nat>) {
    && (forall d :: d in downs && d.HostIf? ==> !VmHas(vms, d.id) && d.id !in disabled)
    && (forall id :: id in disabled ==> !VmHas(vms, id))
  }

  ghost predicate VmInv(g: Globals, vms: seq<Vm>, roleCount: map<string, nat>, off4: nat, off6: nat, bound: nat) {
    VmsOrdered(vms, bound) && NamesOrdered(vms, roleCount) && Backplanes(g, vms, off4, off6, bound)
  }

  ghost predicate HostInv(vms: seq<Vm>, downs: seq<Iface>, disabled: seq<nat>, bound: nat) {
    HostsOrdered(downs, bound) && Ascending(disabled, bound) && Exclusive(vms, downs, disabled)
  }

  /** Every link id handed out so far is below the bound. */
  ghost predicate Inv(g: Globals, s: State, bound: nat) {
    && VmInv(g, s.vms, s.roleCount, s.off4, s.off6, bound)
    && HostInv(s.vms, s.downs, s.disabled, bound)
    && (s.breakout.Some? ==> s.breakout.value > 0)
  }

  lemma InvWeakens(g: Globals, s: State, low: nat, high: nat)
    requires Inv(g, s, low) && low <= high
    ensures Inv(g, s, high)
  {
  }

  // ---- one VM ----

  lemma BackplaneKept(g: Globals, vms: seq<Vm>, off4: nat, off6: nat, bound: nat, vm: Vm)
    requires Backplanes(g, vms, off4, off6, bound)
    requires vm.ipOffset >= bound
    requires var a := Plain(BP4_START, BP4_PTF, off4, vm.ipOffset); !Exhausted(a) && vm.bp4 == Wrap4(a)
    requires vm.bp6 == Plain(BP6_START, BP6_PTF, off6, vm.ipOffset)
    ensures Backplanes(g, vms + [vm], NextOff(BP4_START, BP4_PTF, off4, vm.ipOffset),
                       NextOff(BP6_START, BP6_PTF, off6, vm.ipOffset), vm.ipOffset + 1)
  {
    var a := Plain(BP4_START, BP4_PTF, off4, vm.ipOffset);
    assert Unwrap4(vm.bp4) == a;
    var all := vms + [vm];
    forall i, j | 0 <= i < j < |all| ensures Unwrap4(all[i].bp4) < Unwrap4(all[j].bp4) && all[i].bp6 < all[j].bp6 {
      if j == |vms| {
        assert all[i] == vms[i];
      }
    }
  }

  lemma VmsKept(vms: seq<Vm>, bound: nat, vm: Vm, count: nat)
    requires VmsOrdered(vms, bound) && vm.ipOffset >= bound && vm.offset == |vms|
    requires count > 0 && vm.links == Ids(vm.ipOffset, count)
    ensures VmsOrdered(vms + [vm], vm.ipOffset + count)
  {
    assert forall i :: 0 <= i < |vms| ==> (vms + [vm])[i] == vms[i];
  }

  lemma NamesKept(vms: seq<Vm>, roleCount: map<string, nat>, vm: Vm)
    requires NamesOrdered(vms, roleCount) && vm.nameId == Count(roleCount, vm.role) + 1
    ensures NamesOrdered(vms + [vm], roleCount[vm.role := vm.nameId])
  {
  }

  lemma NamesBump(vms: seq<Vm>, roleCount: map<string, nat>, role: string)
    requires NamesOrdered(vms, roleCount)
    ensures NamesOrdered(vms, roleCount[role := Count(roleCount, role) + 1])
  {
  }

  lemma ExclusiveKept(vms: seq<Vm>, downs: seq<Iface>, disabled: seq<nat>, vm: Vm, bound: nat)
    requires HostInv(vms, downs, disabled, bound)
    requires forall id: nat :: id in vm.links ==> id >= bound
    ensures HostInv(vms + [vm], downs, disabled, bound)
  {
    var all := vms + [vm];
    forall id: nat | id < bound ensures VmHas(all, id) <==> VmHas(vms, id) {
      if VmHas(vms, id) {
        var i :| 0 <= i < |vms| && id in vms[i].links;
        assert all[i] == vms[i];
      }
      if VmHas(all, id) {
        var i :| 0 <= i < |all| && id in all[i].links;
        assert i < |vms|;
      }
    }
  }

  /** One more VM, named by the next number of its role, with links from the bound on. */
  lemma AppendVm(g: Globals, vms: seq<Vm>, roleCount: map<string, nat>, off4: nat, off6: nat, bound: nat, vm: Vm,
                 count: nat)
    requires VmInv(g, vms, roleCount, off4, off6, bound)
    requires vm.ipOffset >= bound && vm.offset == |vms| && count > 0 && vm.links == Ids(vm.ipOffset, count)
    requires vm.nameId == Count(roleCount, vm.role) + 1
    requires var a := Plain(BP4_START, BP4_PTF, off4, vm.ipOffset); !Exhausted(a) && vm.bp4 == Wrap4(a)
    requires vm.bp6 == Plain(BP6_START, BP6_PTF, off6, vm.ipOffset)
    ensures VmInv(g, vms + [vm], roleCount[vm.role := vm.nameId], NextOff(BP4_START, BP4_PTF, off4, vm.ipOffset),
                  NextOff(BP6_START, BP6_PTF, off6, vm.ipOffset), vm.ipOffset + count)
  {
    VmsKept(vms, bound, vm, count);
    NamesKept(vms, roleCount, vm);
    BackplaneKept(g, vms, off4, off6, bound, vm);
    BackplanesWeaken(g, vms + [vm], NextOff(BP4_START, BP4_PTF, off4, vm.ipOffset),
                     NextOff(BP6_START, BP6_PTF, off6, vm.ipOffset), vm.ipOffset + 1, vm.ipOffset + count);
  }

  lemma HostsWeaken(vms: seq<Vm>, downs: seq<Iface>, disabled: seq<nat>, low: nat, high: nat)
    requires HostInv(vms, downs, disabled, low) && low <= high
    ensures HostInv(vms, downs, disabled, high)
  {
  }

  /** A VM downlink is listed under the first link id of the VM. */
  lemma DownlinkKept(vms: seq<Vm>, downs: seq<Iface>, disabled: seq<nat>, id: nat, high: nat)
    requires HostInv(vms, downs, disabled, id) && id < high
    ensures HostInv(vms, downs + [LinkIf(id)], disabled, high)
  {
    assert forall d :: d in downs + [LinkIf(id)] && d.HostIf? ==> d in downs;
  }

  /** The invariant between making a VM and listing it: link ids from the VM's first one on are not listed yet. */
  ghost predicate Unlisted(g: Globals, v: State, id: nat, high: nat) {
    && VmInv(g, v.vms, v.roleCount, v.off4, v.off6, high) && HostInv(v.vms, v.downs, v.disabled, id)
    && (v.breakout.Some? ==> v.breakout.value > 0)
  }

  ghost predicate Made(g: Globals, s: State, r: State, high: nat) {
    r.failed || (Inv(g, r, high) && r.start == s.start && r.breakout == s.breakout)
  }

  lemma ListVmKeeps(g: Globals, s: State, v: State, kind: LinkType, id: nat, high: nat, r: State)
    requires Unlisted(g, v, id, high) && id < high && v.start == s.start && v.breakout == s.breakout
    requires r == ListVm(v, kind, id)
    ensures Made(g, s, r, high)
  {
    HostsWeaken(v.vms, v.downs, v.disabled, id, high);
    DownlinkKept(v.vms, v.downs, v.disabled, id, high);
  }

  lemma NewVmKeeps(g: Globals, s: State, bound: nat, kind: LinkType, role: Role, ipOffset: nat, count: nat,
                   numLags: nat, high: nat)
    requires Inv(g, s, bound) && ipOffset >= bound && count > 0 && high == ipOffset + count
    ensures var v := Build(s, kind, Ids(ipOffset, count), role, ipOffset, numLags);
            v.failed || (Unlisted(g, v, ipOffset, high) && v.start == s.start && v.breakout == s.breakout)
  {
    var v := Build(s, kind, Ids(ipOffset, count), role, ipOffset, numLags);
    if !v.failed {
      var vm := v.vms[|s.vms|];
      AppendVm(g, s.vms, s.roleCount, s.off4, s.off6, bound, vm, count);
      ExclusiveKept(s.vms, s.downs, s.disabled, vm, bound);
      HostsWeaken(v.vms, v.downs, v.disabled, bound, ipOffset);
    }
  }

  /** A VM made with consecutive links from the bound on keeps the invariant. */
  lemma MakeVmKeeps(g: Globals, s: State, bound: nat, kind: LinkType, role: Role, ipOffset: nat, count: nat,
                    numLags: nat, high: nat, r: State)
    requires Inv(g, s, bound) && ipOffset >= bound && count > 0 && high == ipOffset + count
    requires r == MakeVm(s, kind, Ids(ipOffset, count), role, ipOffset, numLags)
    ensures Made(g, s, r, high)
  {
    if !r.failed {
      var v := Build(s, kind, Ids(ipOffset, count), role, ipOffset, numLags);
      NewVmKeeps(g, s, bound, kind, role, ipOffset, count, numLags, high);
      ListVmKeeps(g, s, v, kind, ipOffset, high, r);
    }
  }

  lemma BackplanesWeaken(g: Globals, vms: seq<Vm>, off4: nat, off6: nat, low: nat, high: nat)
    requires Backplanes(g, vms, off4, off6, low) && low <= high
    ensures Backplanes(g, vms, off4, off6, high)
  {
  }

  // ---- the loops ----

  /** No VM holds a link id from the bound on. */
  lemma FreshId(vms: seq<Vm>, bound: nat, id: nat)
    requires VmsOrdered(vms, bound) && id >= bound
    ensures !VmHas(vms, id)
  {
    forall i | 0 <= i < |vms| ensures id !in vms[i].links {
      assert vms[i].links == Ids(vms[i].ipOffset, |vms[i].links|);
    }
  }

  lemma HostAdded(vms: seq<Vm>, downs: seq<Iface>, disabled: seq<nat>, link: nat)
    requires HostInv(vms, downs, disabled, link) && !VmHas(vms, link)
    ensures HostInv(vms, downs + [HostIf(link)], disabled, link + 1)
    ensures HostInv(vms, downs, disabled + [link], link + 1)
  {
    assert forall d :: d in downs ==> d.id < link;
    assert forall d :: d in downs + [HostIf(link)] && d.HostIf? ==> d in downs || d.id == link;
  }

  lemma HostKeeps(g: Globals, s: State, link: nat)
    requires Inv(g, s, link)
    ensures Inv(g, s.(downs := s.downs + [HostIf(link)]), link + 1)
    ensures Inv(g, s.(disabled := s.disabled + [link]), link + 1)
  {
    FreshId(s.vms, link, link);
    HostAdded(s.vms, s.downs, s.disabled, link);
    VmsWeaken(g, s, link, link + 1);
  }

  lemma VmsWeaken(g: Globals, s: State, low: nat, high: nat)
    requires VmInv(g, s.vms, s.roleCount, s.off4, s.off6, low) && low <= high
    ensures VmInv(g, s.vms, s.roleCount, s.off4, s.off6, high)
  {
  }

  lemma BumpKeeps(g: Globals, s: State, role: string, bound: nat)
    requires Inv(g, s, bound)
    ensures Inv(g, Bump(s, role), bound)
  {
    NamesBump(s.vms, s.roleCount, role);
  }

  lemma OneLinkIds(link: nat)
    ensures Ids(link, 1) == [link]
  {
  }

  /** The five things that can happen to a link. */
  lemma VisitLinkCases(c: Config, s: State, plan: Plan, port: int, link: nat)
    requires s.start <= link
    ensures var r := VisitLink(c, s, plan, port, link);
            || r == s
            || (plan.role.Some? && r == Bump(s, plan.role.value.name))
            || (plan.role.Some? && r == MakeVm(s, plan.kind, [link], plan.role.value, link,
                plan.role.value.numLags))
            || r == s.(downs := s.downs + [HostIf(link)])
            || r == s.(disabled := s.disabled + [link])
  {
  }

  ghost predicate LinkDone(g: Globals, s: State, r: State, link: nat) {
    r.failed || (Inv(g, r, link + 1) && r.start == s.start)
  }

  lemma UntouchedDone(g: Globals, s: State, link: nat)
    requires Inv(g, s, link)
    ensures LinkDone(g, s, s, link)
  {
    InvWeakens(g, s, link, link + 1);
  }

  lemma BumpDone(g: Globals, s: State, link: nat, role: string)
    requires Inv(g, s, link)
    ensures LinkDone(g, s, Bump(s, role), link)
  {
    InvWeakens(g, s, link, link + 1);
    BumpKeeps(g, s, role, link + 1);
  }

  lemma VmDone(g: Globals, s: State, link: nat, kind: LinkType, role: Role)
    requires Inv(g, s, link)
    ensures LinkDone(g, s, MakeVm(s, kind, [link], role, link, role.numLags), link)
  {
    OneLinkIds(link);
    MakeVmKeeps(g, s, link, kind, role, link, 1, role.numLags, link + 1,
                MakeVm(s, kind, [link], role, link, role.numLags));
  }

  lemma HostDone(g: Globals, s: State, link: nat)
    requires Inv(g, s, link)
    ensures LinkDone(g, s, s.(downs := s.downs + [HostIf(link)]), link)
    ensures LinkDone(g, s, s.(disabled := s.disabled + [link]), link)
  {
    HostKeeps(g, s, link);
  }

  lemma VisitLinkKeeps(g: Globals, c: Config, s: State, plan: Plan, port: int, link: nat)
    requires s.start <= link && Inv(g, s, link)
    ensures LinkDone(g, s, VisitLink(c, s, plan, port, link), link)
  {
    VisitLinkCases(c, s, plan, port, link);
    UntouchedDone(g, s, link);
    HostDone(g, s, link);
    if plan.role.Some? {
      BumpDone(g, s, link, plan.role.value.name);
      VmDone(g, s, link, plan.kind, plan.role.value);
    }
  }

  lemma {:induction false} VisitLinksKeeps(g: Globals, c: Config, s: State, plan: Plan, port: int, link: nat, end: nat)
    requires s.start <= link <= end && (s.failed || Inv(g, s, link))
    ensures var r := VisitLinks(c, s, plan, port, link, end); r.failed || (Inv(g, r, end) && r.start == s.start)
    decreases end - link
  {
    if link == end {
    } else {
      if !s.failed { VisitLinkKeeps(g, c, s, plan, port, link); }
      VisitLinksKeeps(g, c, VisitLink(c, s, plan, port, link), plan, port, link + 1, end);
    }
  }

  lemma {:induction false} FindLagNonEmpty(entries: seq<PortEntry>, port: int)
    ensures FindLag(entries, port).Some? ==> port in FindLag(entries, port).value
  {
    if entries == [] {
    } else {
      FindLagNonEmpty(entries[1..], port);
    }
  }

  lemma LagClosed(g: Globals, s: State, v: State, lag: set<int>, high: nat, r: State)
    requires Made(g, s, v, high) && !v.failed && r == v.(lagged := v.lagged + lag, start := high)
    ensures Inv(g, r, r.start)
  {
  }

  lemma VisitLagKeeps(g: Globals, c: Config, s: State, plan: Plan, lag: set<int>)
    requires Inv(g, s, s.start) && lag != {}
    ensures var r := VisitLag(c, s, plan, lag); r.failed || Inv(g, r, r.start)
  {
    if plan.role.Some? && s.breakout.Some? {
      var count := |lag| * s.breakout.value;
      var high, role := s.start + count, plan.role.value;
      MulMonotone(1, |lag|, s.breakout.value);
      var v := MakeVm(s, plan.kind, Ids(s.start, count), role, s.start, count);
      MakeVmKeeps(g, s, s.start, plan.kind, role, s.start, count, count, high, v);
      if !v.failed {
        var r := VisitLag(c, s, plan, lag);
        assert r == v.(lagged := v.lagged + lag, start := high);
        LagClosed(g, s, v, lag, high, r);
      }
    }
  }

  lemma VisitPlainKeeps(g: Globals, c: Config, s: State, plan: Plan, port: int)
    requires Inv(g, s, s.start)
    ensures var r := VisitPlain(c, s, plan, port); r.failed || Inv(g, r, r.start)
  {
    VisitLinksKeeps(g, c, s, plan, port, s.start, s.start + plan.links);
  }

  lemma VisitPortKeeps(g: Globals, c: Config, s: State, port: int)
    requires s.failed || Inv(g, s, s.start)
    ensures var r := VisitPort(c, s, port); r.failed || Inv(g, r, r.start)
  {
    var plan := PlanOf(c, port);
    if !s.failed && plan.Some? {
      var p := plan.value;
      var t := if p.kind.Up? || p.kind.Down? then s.(breakout := Some(p.links)) else s;
      assert Inv(g, t, t.start);
      var lag := FindLag(c.lagEntries, port);
      FindLagNonEmpty(c.lagEntries, port);
      if lag.Some? {
        VisitLagKeeps(g, c, t, p, lag.value);
      } else {
        VisitPlainKeeps(g, c, t, p, port);
      }
    }
  }

  lemma {:induction false} VisitPortsKeeps(g: Globals, c: Config, s: State, ports: seq<int>)
    requires s.failed || Inv(g, s, s.start)
    ensures var r := VisitPorts(c, s, ports); r.failed || Inv(g, r, r.start)
    decreases |ports|
  {
    if ports == [] {
    } else {
      VisitPortKeeps(g, c, s, ports[0]);
      VisitPortsKeeps(g, c, VisitPort(c, s, ports[0]), ports[1..]);
    }
  }

  /** A run of the port loop; a fresh process starts it with both globals 0. */
  function Run(c: Config, g: Globals, ports: seq<int>): State {
    VisitPorts(c, Init(g), ports)
  }

  /** A fresh process. */
  function Fresh(asns: Counters): Globals {
    Globals(0, 0, asns)
  }

  lemma RunKeeps(g: Globals, c: Config, ports: seq<int>)
    requires g.Legal() && !Run(c, g, ports).failed
    ensures Inv(g, Run(c, g, ports), Run(c, g, ports).start)
  {
    VisitPortsKeeps(g, c, Init(g), ports);
  }

  // ---- the promises ----

  /**
   For any port layout, LAG grouping and skip list: a link id belongs to at most one VM, enabled host
   interface or disabled host interface, and ids ascend along each list.
   */
  lemma LinkIdsUnique(c: Config, g: Globals, ports: seq<int>, id: nat)
    requires g.Legal() && !Run(c, g, ports).failed
    ensures var s := Run(c, g, ports);
            && (forall i, j :: 0 <= i < j < |s.vms| && id in s.vms[i].links ==> id !in s.vms[j].links)
            && (forall i, x, y :: 0 <= i < |s.vms| && 0 <= x < y < |s.vms[i].links| ==>
                s.vms[i].links[x] < s.vms[i].links[y])
            && !(VmHas(s.vms, id) && HostIf(id) in s.downs) && !(VmHas(s.vms, id) && id in s.disabled)
            && !(HostIf(id) in s.downs && id in s.disabled)
            && HostsOrdered(s.downs, s.start) && Ascending(s.disabled, s.start)
            && (VmHas(s.vms, id) ==> id < s.start)
  {
    RunKeeps(g, c, ports);
    var s := Run(c, g, ports);
    if id >= s.start { FreshId(s.vms, s.start, id); }
    forall i, j | 0 <= i < j < |s.vms| && id in s.vms[i].links ensures id !in s.vms[j].links {
      assert s.vms[i].links == Ids(s.vms[i].ipOffset, |s.vms[i].links|);
      assert s.vms[j].links == Ids(s.vms[j].ipOffset, |s.vms[j].links|);
    }
  }

  /** VM offsets are list positions, ip offsets ascend, and no two VMs share a name. */
  lemma VmsNumbered(c: Config, g: Globals, ports: seq<int>, i: nat, j: nat)
    requires g.Legal() && !Run(c, g, ports).failed && i < j < |Run(c, g, ports).vms|
    ensures var vms := Run(c, g, ports).vms;
            && vms[i].offset == i && vms[j].offset == j && vms[i].ipOffset < vms[j].ipOffset
            && (vms[i].role, vms[i].nameId) != (vms[j].role, vms[j].nameId)
  {
    RunKeeps(g, c, ports);
    var vms := Run(c, g, ports).vms;
    assert |vms[i].links| > 0;
  }

  /** An address from its octets, and one from its eight groups. */
  function Quad(a: nat, b: nat, c: nat, d: nat): nat {
    0x100_0000 * a + 0x1_0000 * b + 0x100 * c + d
  }

  function Groups(a: nat, b: nat, c: nat, d: nat, e: nat, f: nat, g: nat, h: nat): nat {
    0x1_0000_0000_0000_0000
    * (0x1_0000_0000_0000 * a + 0x1_0000_0000 * b + 0x1_0000 * c + d)
    + (0x1_0000_0000_0000 * e + 0x1_0000_0000 * f + 0x1_0000 * g + h)
  }

  /** In the usual notation: 10.0.x.2y and its neighbour, fc00::4k+1 and fc00::4k+2, 100.1.x.y, 2064:100:0:k+1::. */
  lemma AddressesSpelled(x: nat, y: nat, k: nat)
    ensures x < 256 && y < 128 && k == 128 * x + y ==> Pair4(k) == (Quad(10, 0, x, 2 * y), Quad(10, 0, x, 2 * y + 1))
    ensures x < 256 && y < 256 && k + 1 == 256 * x + y ==> Loopback4(k) == Quad(100, 1, x, y)
    ensures 4 * k + 2 < 0x1_0000 ==>
              Pair6(k) == (Groups(0xFC00, 0, 0, 0, 0, 0, 0, 4 * k + 1), Groups(0xFC00, 0, 0, 0, 0, 0, 0, 4 * k + 2))
    ensures k + 1 < 0x1_0000 ==> Loopback6(k) == Groups(0x2064, 0x100, 0, k + 1, 0, 0, 0, 0)
  {
  }

  /** The address pairs and loopbacks of two VMs have nothing in common. */
  lemma InterfaceAddressesDistinct(c: Config, g: Globals, ports: seq<int>, i: nat, j: nat)
    requires g.Legal() && !Run(c, g, ports).failed && i < j < |Run(c, g, ports).vms|
    ensures var a, b := Run(c, g, ports).vms[i].ipOffset, Run(c, g, ports).vms[j].ipOffset;
            && Pair4(a).0 < Pair4(a).1 < Pair4(b).0 < Pair4(b).1
            && Pair6(a).0 < Pair6(a).1 < Pair6(b).0 < Pair6(b).1
            && Loopback4(a) < Loopback4(b) && Loopback6(a) < Loopback6(b)
  {
    VmsNumbered(c, g, ports, i, j);
  }

  /**
   Every run that does not exhaust the range gives each VM a backplane address inside 10.10.244.1 to
   10.10.247.254, also after wrapping, but never the start address again.
   */
  lemma BackplaneInRange(c: Config, g: Globals, ports: seq<int>, i: nat)
    requires g.Legal() && !Run(c, g, ports).failed && i < |Run(c, g, ports).vms|
    ensures var vm := Run(c, g, ports).vms[i];
            BP4_LOWER <= vm.bp4 <= BP4_UPPER && vm.bp4 != BP4_START && BP6_START < vm.bp6
  {
    RunKeeps(g, c, ports);
  }

  /** And no two VMs share one. */
  lemma BackplanesDistinct(c: Config, g: Globals, ports: seq<int>, i: nat, j: nat)
    requires g.Legal() && !Run(c, g, ports).failed && i < j < |Run(c, g, ports).vms|
    ensures var vms := Run(c, g, ports).vms; vms[i].bp4 != vms[j].bp4 && vms[i].bp6 != vms[j].bp6
  {
    RunKeeps(g, c, ports);
  }

  /**
   A VM gets the PTF's own address exactly where the run began with the global left set and reaches the ip offset
   in front of the skipped one; a run from fresh globals never does.
   */
  lemma PtfHitExactly(c: Config, g: Globals, ports: seq<int>, i: nat)
    requires g.Legal() && !Run(c, g, ports).failed && i < |Run(c, g, ports).vms|
    ensures var vm := Run(c, g, ports).vms[i];
            && (vm.bp4 == BP4_PTF <==> g.off4 == 1 && vm.ipOffset == 251)
            && (vm.bp6 == BP6_PTF <==> g.off6 == 1 && vm.ipOffset == 252)
  {
    RunKeeps(g, c, ports);
  }

  /** The globals a run leaves behind: set if they were, or if the run skipped the PTF's address. */
  lemma GlobalsLeft(c: Config, g: Globals, ports: seq<int>)
    requires g.Legal() && !Run(c, g, ports).failed
    ensures var s := Run(c, g, ports); Globals(s.off4, s.off6, s.asns).Legal() && g.off4 <= s.off4 && g.off6 <= s.off6
  {
    RunKeeps(g, c, ports);
  }

  /** The ip offsets a run can serve: up to 1021 VMs' worth of links, one fewer once the PTF was skipped. */
  lemma RangeExhaustedExactly(off: nat, ipOffset: nat)
    requires off <= 1
    ensures Exhausted(Plain(BP4_START, BP4_PTF, off, ipOffset)) <==>
            ipOffset + NextOff(BP4_START, BP4_PTF, off, ipOffset) >= 1021
  {
  }

  // ---- a second call in one process ----

  /** One LAG of 251 links, and two single peer links behind it. */
  const TWICE: Config := Config(
    Some(Role("t1", 0, 0)), Some(Role("pt0", 0, 1)), None, None,
    [LagPort({0})], [1, 2], [], [], [LagPort({0})], [],
    251, 1, 1, 1, 1, false)

  lemma TwicePlans()
    ensures PlanOf(TWICE, 0) == Some(Plan(Up, TWICE.uplink, 251, 1)) && FindLag(TWICE.lagEntries, 0) == Some({0})
    ensures forall port :: port == 1 || port == 2 ==>
              PlanOf(TWICE, port) == Some(Plan(Peer, TWICE.peer, 1, 1)) && FindLag(TWICE.lagEntries, port) == None
  {
    assert TWICE.uplinkPorts[0].LagPort? && 0 in TWICE.uplinkPorts[0].ports;
    assert InPorts(0, TWICE.uplinkPorts);
  }

  /** The LAG takes the links up to 250. */
  lemma TwiceLag(g: Globals)
    requires g.Legal()
    ensures var s := VisitPort(TWICE, Init(g), 0);
            !s.failed && s.start == 251 && s.off4 == g.off4 && s.off6 == g.off6 && |s.vms| == 1 && s.lagged == {0}
  {
    TwicePlans();
    assert |{0}| == 1;
  }

  /** A single peer link becomes a VM. */
  lemma TwicePeer(s: State, port: int)
    requires (port == 1 || port == 2) && !s.failed && s.lagged == {0} && s.start <= 252 && s.off4 <= 1 && s.off6 <= 1
    ensures var r := VisitPort(TWICE, s, port);
            && !r.failed && r.start == s.start + 1 && r.lagged == {0} && |r.vms| == |s.vms| + 1
            && r.vms[..|s.vms|] == s.vms && r.vms[|s.vms|].ipOffset == s.start
            && r.off4 == NextOff(BP4_START, BP4_PTF, s.off4, s.start)
            && r.off6 == NextOff(BP6_START, BP6_PTF, s.off6, s.start)
  {
    TwicePlans();
    var plan := PlanOf(TWICE, port).value;
    var r := VisitLink(TWICE, s, plan, port, s.start);
    assert r == MakeVm(s, Peer, [s.start], Role("pt0", 0, 1), s.start, 0);
    assert VisitLinks(TWICE, s, plan, port, s.start, s.start + 1) == r;
  }

  /** The run's second VM stands at ip offset 251 and its third at 252, which sets the IPv4 global. */
  lemma TwiceRun(g: Globals)
    requires g.Legal()
    ensures var s := Run(TWICE, g, [0, 1, 2]);
            !s.failed && |s.vms| == 3 && s.vms[1].ipOffset == 251 && s.vms[2].ipOffset == 252 && s.off4 == 1
  {
    var s := Init(g);
    TwiceLag(g);
    var a := VisitPort(TWICE, s, 0);
    TwicePeer(a, 1);
    var b := VisitPort(TWICE, a, 1);
    TwicePeer(b, 2);
    assert [0, 1, 2][1..] == [1, 2] && [1, 2][1..] == [2] && [2][1..] == [];
    assert Run(TWICE, g, [0, 1, 2]) == VisitPorts(TWICE, a, [1, 2]) == VisitPorts(TWICE, b, [2])
           == VisitPort(TWICE, b, 2);
  }

  /**
   Two calls of one configuration in one process: the first is clean, the second gives its second VM the PTF's
   address.
   */
  lemma SecondCallHitsPtf(asns: Counters)
    ensures var first := Run(TWICE, Fresh(asns), [0, 1, 2]);
            var second := Run(TWICE, Globals(first.off4, first.off6, first.asns), [0, 1, 2]);
            && !first.failed && !second.failed && |first.vms| == |second.vms| == 3
            && (forall i :: 0 <= i < 3 ==> first.vms[i].bp4 != BP4_PTF)
            && second.vms[1].bp4 == BP4_PTF
  {
    TwiceRun(Fresh(asns));
    var first := Run(TWICE, Fresh(asns), [0, 1, 2]);
    GlobalsLeft(TWICE, Fresh(asns), [0, 1, 2]);
    var g := Globals(first.off4, first.off6, first.asns);
    TwiceRun(g);
    forall i | 0 <= i < 3 ensures first.vms[i].bp4 != BP4_PTF {
      PtfHitExactly(TWICE, Fresh(asns), [0, 1, 2], i);
    }
    PtfHitExactly(TWICE, g, [0, 1, 2], 1);
  }
}
