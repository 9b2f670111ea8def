/** `generate_topo` of ansible/generate_topo.py: the port loop as a state machine on values. */
module Topo {
  import opened Common

  /** An entry of a port list: one port, or the ports of a LAG. */
  datatype PortEntry = Single(port: int) | LagPort(ports: set<int>)

  predicate InPorts(port: int, entries: seq<PortEntry>) {
    exists i :: 0 <= i < |entries| && (entries[i] == Single(port) || (entries[i].LagPort? && port in entries[i].ports))
  }

  /** `asnIncrement` is 1 where the role configuration gives none. */
  datatype Role = Role(name: string, numLags: nat, asnIncrement: int)

  datatype LinkType = Up | Peer | Fabric | Down

  /** The entries `asn` and `asn_v6` of a role configuration. */
  datatype Asns = Asns(v4: int, v6: int)
  {
    function Plus(n: int): Asns { Asns(v4 + n, v6 + n) }
  }

  /** The counters of the four role configurations, which every VM advances and no call resets. */
  datatype Counters = Counters(up: Asns, peer: Asns, fabric: Asns, down: Asns)
  {
    function Of(kind: LinkType): Asns {
      match kind
      case Up => up
      case Peer => peer
      case Fabric => fabric
      case Down => down
    }

    function Raised(kind: LinkType, step: int): Counters {
      match kind
      case Up => this.(up := up.Plus(step))
      case Peer => this.(peer := peer.Plus(step))
      case Fabric => this.(fabric := fabric.Plus(step))
      case Down => this.(down := down.Plus(step))
    }
  }

  /** `lagEntries` are the entries searched for LAGs, none if the uplink ports are a plain list. */
  datatype Config = Config(
    uplink: Option<Role>, peer: Option<Role>, fabric: Option<Role>, downlink: Option<Role>,
    uplinkPorts: seq<PortEntry>, peerPorts: seq<int>, fabricPorts: seq<PortEntry>, skipPorts: seq<PortEntry>,
    lagEntries: seq<PortEntry>, skipLinks: seq<int>,
    usBreakout: Positive, dsBreakout: Positive, fabricBreakout: Positive,
    usLinkStep: Positive, dsLinkStep: Positive, continuousVms: bool)

  datatype Vm = Vm(links: seq<nat>, offset: nat, nameId: nat, role: string, tornum: nat, ipOffset: nat, numLags: nat,
                   asns: Asns, bp4: nat, bp6: nat)

  datatype Iface = LinkIf(id: nat) | HostIf(id: nat)

  datatype State = State(
    vms: seq<Vm>, downs: seq<Iface>, ups: seq<nat>, disabled: seq<nat>,
    roleCount: map<string, nat>, lagged: set<int>, tornum: nat,
    start: nat,                // link_id_start
    breakout: Option<nat>,     // num_breakout, unset until an uplink or downlink port was seen
    off4: nat, off6: nat,      // the module globals
    asns: Counters,            // kept in the global role configuration
    failed: bool)

  // ---- addresses ----

  const BP4_START: nat := 0x0A0A_F601   // 10.10.246.1
  const BP4_PTF: nat := 0x0A0A_F6FE     // 10.10.246.254
  const BP4_LOWER: nat := 0x0A0A_F401   // 10.10.244.1
  const BP4_UPPER: nat := 0x0A0A_F7FE   // 10.10.247.254
  const BP6_START: nat := 0xFC0A_0000_0000_0000_0000_0000_0000_0001   // fc0a::1
  const BP6_PTF: nat := 0xFC0A_0000_0000_0000_0000_0000_0000_00FF     // fc0a::ff

  /** `calc_ipv4_pair("10.0.0.0", k)` and `calc_ipv6_pair("FC00::", k)`. */
  function Pair4(k: nat): (nat, nat) {
    (0x0A00_0000 + 2 * k, 0x0A00_0000 + 2 * k + 1)
  }

  function Pair6(k: nat): (nat, nat) {
    (0xFC00_0000_0000_0000_0000_0000_0000_0000 + 4 * k + 1, 0xFC00_0000_0000_0000_0000_0000_0000_0000 + 4 * k + 2)
  }

  function Loopback4(k: nat): nat { 0x6401_0000 + k + 1 }
  function Loopback6(k: nat): nat { 0x2064_0100_0000_0000_0000_0000_0000_0000 + (k + 1) * 0x1_0000_0000_0000_0000 }

  /** The additional offset after a VM: set once an address hits the PTF's. */
  function NextOff(start: nat, ptf: nat, off: nat, ipOffset: nat): nat {
    if start + ipOffset + 1 + off == ptf then 1 else off
  }

  /** The backplane address before the range check. */
  function Plain(start: nat, ptf: nat, off: nat, ipOffset: nat): nat {
    start + ipOffset + 1 + NextOff(start, ptf, off, ipOffset)
  }

  /** Addresses past the upper bound restart at the lower bound. */
  function Wrap4(a: nat): nat {
    if a > BP4_UPPER then BP4_LOWER + (a - BP4_UPPER) - 1 else a
  }

  /** The range assertion fails. */
  predicate Exhausted(a: nat) {
    a > BP4_UPPER && Wrap4(a) >= BP4_START
  }

  // ---- the loop ----

  /** `VM(...)`, appended to the list. */
  function NewVm(s: State, links: seq<nat>, nameId: nat, role: string, asns: Asns, ipOffset: nat, numLags: nat): State {
    var a := Plain(BP4_START, BP4_PTF, s.off4, ipOffset);
    if Exhausted(a) then s.(failed := true)
    else
      s.(vms := s.vms + [Vm(links, |s.vms|, nameId, role, s.tornum, ipOffset, numLags, asns,
                            Wrap4(a), Plain(BP6_START, BP6_PTF, s.off6, ipOffset))],
         off4 := NextOff(BP4_START, BP4_PTF, s.off4, ipOffset),
         off6 := NextOff(BP6_START, BP6_PTF, s.off6, ipOffset))
  }

  function Ids(from: nat, count: nat): (ids: seq<nat>)
    ensures |ids| == count && forall i :: 0 <= i < count ==> ids[i] == from + i
  {
    seq(count, i requires i >= 0 => from + i)
  }

  function Bump(s: State, role: string): State {
    s.(roleCount := s.roleCount[role := Count(s.roleCount, role) + 1])
  }

  /** The interface lists after a VM was made. */
  function ListVm(s: State, kind: LinkType, id: nat): State {
    match kind
    case Up => s.(ups := s.ups + [id])
    case Down => s.(tornum := s.tornum + 1, downs := s.downs + [LinkIf(id)])
    case Peer => s
    case Fabric => s
  }

  /** Counting the VM for its role: its number and its ASNs. */
  function CountIn(s: State, kind: LinkType, role: Role): State {
    Bump(s, role.name).(asns := s.asns.Raised(kind, role.asnIncrement))
  }

  /** The VM is counted and made, but not listed yet. */
  function Build(s: State, kind: LinkType, links: seq<nat>, role: Role, ipOffset: nat, numLags: nat): State {
    var t := CountIn(s, kind, role);
    NewVm(t, links, Count(t.roleCount, role.name), role.name, t.asns.Of(kind), ipOffset, numLags)
  }

  /** Counting the role, making the VM, and listing it. */
  function MakeVm(s: State, kind: LinkType, links: seq<nat>, role: Role, ipOffset: nat, numLags: nat): State {
    var v := Build(s, kind, links, role, ipOffset, numLags);
    if v.failed then v else ListVm(v, kind, ipOffset)
  }

  /** What one panel port is used for. */
  datatype Plan = Plan(kind: LinkType, role: Option<Role>, links: Positive, step: Positive)

  function PlanOf(c: Config, port: int): Option<Plan> {
    if InPorts(port, c.uplinkPorts) then
      if c.uplink.None? then None else Some(Plan(Up, c.uplink, c.usBreakout, c.usLinkStep))
    else if port in c.peerPorts then
      if c.peer.None? then None else Some(Plan(Peer, c.peer, 1, 1))
    else if InPorts(port, c.fabricPorts) then
      if c.fabric.None? then None else Some(Plan(Fabric, c.fabric, c.fabricBreakout, 1))
    else Some(Plan(Down, c.downlink, c.dsBreakout, c.dsLinkStep))
  }

  /** One link of a port: a VM, a host interface, a disabled host interface, or nothing. */
  function VisitLink(c: Config, s: State, plan: Plan, port: int, link: nat): State
    requires s.start <= link
  {
    var onStep := (link - s.start) % plan.step == 0;
    var skipped := InPorts(port, c.skipPorts);
    if s.failed then s
    else if plan.role.Some? then
      var role := plan.role.value;
      // the role is counted for every link unless names are to be continuous
      if !onStep || skipped then (if c.continuousVms then s else Bump(s, role.name))
      else MakeVm(s, plan.kind, [link], role, link, role.numLags)
    else if onStep && !skipped && link !in c.skipLinks then s.(downs := s.downs + [HostIf(link)])
    else if skipped || link in c.skipLinks then s.(disabled := s.disabled + [link])
    else s
  }

  function VisitLinks(c: Config, s: State, plan: Plan, port: int, link: nat, end: nat): State
    requires s.start <= link <= end
    decreases end - link
  {
    if link == end then s
    else VisitLinks(c, VisitLink(c, s, plan, port, link), plan, port, link + 1, end)
  }

  function FindLag(entries: seq<PortEntry>, port: int): Option<set<int>>
  {
    if entries == [] then None
    else if entries[0].LagPort? && port in entries[0].ports then Some(entries[0].ports)
    else FindLag(entries[1..], port)
  }

  /** A LAG port: one VM over the links of all its ports. */
  function VisitLag(c: Config, s: State, plan: Plan, lag: set<int>): State {
    if plan.role.None? || s.breakout.None? then s.(failed := true)
    else
      var count := |lag| * s.breakout.value;
      var v := MakeVm(s, plan.kind, Ids(s.start, count), plan.role.value, s.start, count);
      if v.failed then v else v.(lagged := v.lagged + lag, start := s.start + count)
  }

  /** A port without a LAG: its links one by one. */
  function VisitPlain(c: Config, s: State, plan: Plan, port: int): State {
    var end := s.start + plan.links;
    var u := VisitLinks(c, s, plan, port, s.start, end);
    if u.failed then u else u.(start := end)
  }

  function VisitPort(c: Config, s: State, port: int): State {
    if s.failed then s
    else
      match PlanOf(c, port)
      case None => s.(failed := true)
      case Some(plan) =>
        var t := if plan.kind.Up? || plan.kind.Down? then s.(breakout := Some(plan.links)) else s;
        var lag := FindLag(c.lagEntries, port);
        if port in t.lagged then t
        else if lag.Some? then VisitLag(c, t, plan, lag.value)
        else VisitPlain(c, t, plan, port)
  }

  function VisitPorts(c: Config, s: State, ports: seq<int>): State
    decreases |ports|
  {
    if ports == [] then s else VisitPorts(c, VisitPort(c, s, ports[0]), ports[1..])
  }

  /** What earlier calls of the process left behind: the module globals and the ASN counters. */
  datatype Globals = Globals(off4: nat, off6: nat, asns: Counters)
  {
    /** The only values the offsets ever hold. */
    predicate Legal() {
      off4 <= 1 && off6 <= 1
    }
  }

  /** The start of a run. */
  function Init(g: Globals): State {
    State([], [], [], [], map[], {}, 1, 0, None, g.off4, g.off6, g.asns, false)
  }
}
