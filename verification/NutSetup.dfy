/** What ansible/library/nut_allocate_ip.py derives from the device templates before it walks the links. */
module NutSetup {
  import opened Common
  import opened Networks
  import opened P2pSearch

  /** A template's networks are already parsed. */
  datatype Template = Template(
    name: string, p2p4: Option<Network>, p2p6: Option<Network>,
    loopback4: Option<Network>, loopback6: Option<Network>, routerId: Option<Network>,
    asnBase: Option<int>, asnStep: Option<int>)
  {
    function P2p(v6: bool): Option<Network> {
      if v6 then p2p6 else p2p4
    }

    /** The pool that names the router. */
    function RouterPool(): Option<Network> {
      if routerId.Some? then routerId else loopback4
    }

    predicate Widths() {
      && (p2p4.Some? ==> p2p4.value.width == 32) && (p2p6.Some? ==> p2p6.value.width == 128)
      && (loopback4.Some? ==> loopback4.value.width == 32) && (loopback6.Some? ==> loopback6.value.width == 128)
      && (routerId.Some? ==> routerId.value.width == 32)
    }
  }

  /** `matches` stands for `re.match(name, dut)`. */
  datatype Facts = Facts(
    duts: seq<Device>, tgs: seq<Device>, dutTemplates: seq<Template>, tgTemplate: Template,
    matches: (string, string) -> bool)
  {
    predicate Widths() {
      tgTemplate.Widths() && forall t :: t in dutTemplates ==> t.Widths()
    }
  }

  /** The first template whose name matches. */
  function FirstMatch(ts: seq<Template>, matches: (string, string) -> bool, dut: Device): (r: Option<Template>)
    ensures r.Some? ==> r.value in ts && matches(r.value.name, dut)
    ensures r.None? <==> forall t :: t in ts ==> !matches(t.name, dut)
  {
    if ts == [] then None
    else if matches(ts[0].name, dut) then Some(ts[0])
    else FirstMatch(ts[1..], matches, dut)
  }

  /** No template before the one found matches. */
  lemma {:induction false} FirstMatchIsFirst(ts: seq<Template>, matches: (string, string) -> bool, dut: Device)
    returns (k: nat)
    requires FirstMatch(ts, matches, dut).Some?
    ensures k < |ts| && FirstMatch(ts, matches, dut) == Some(ts[k]) && matches(ts[k].name, dut)
    ensures forall j :: 0 <= j < k ==> !matches(ts[j].name, dut)
  {
    if matches(ts[0].name, dut) {
      k := 0;
    } else {
      var rest := ts[1..];
      var m := FirstMatchIsFirst(rest, matches, dut);
      k := m + 1;
      assert forall j :: 1 <= j < k ==> ts[j] == rest[j - 1];
    }
  }

  function TemplateOf(f: Facts, dut: Device): Option<Template> {
    FirstMatch(f.dutTemplates, f.matches, dut)
  }

  // ---- pools ----

  /** The pool of a device after the first k DUTs and the first j traffic generators. */
  function PoolOf(f: Facts, v6: bool, k: nat, j: nat, d: Device): Option<Network>
    requires k <= |f.duts| && j <= |f.tgs|
  {
    if f.tgTemplate.P2p(v6).Some? && d in f.tgs[..j] then f.tgTemplate.P2p(v6)
    else if d in f.duts[..k] && TemplateOf(f, d).Some? then TemplateOf(f, d).value.P2p(v6)
    else None
  }

  /** The table of pools after the first k DUTs and the first j traffic generators. */
  ghost predicate PoolTable(f: Facts, v6: bool, k: nat, j: nat, pool: map<Device, Network>)
    requires k <= |f.duts| && j <= |f.tgs|
  {
    forall d :: Lookup(pool, d) == PoolOf(f, v6, k, j, d)
  }

  function Entered(pool: map<Device, Network>, d: Device, n: Option<Network>): map<Device, Network> {
    if n.None? then pool else pool[d := n.value]
  }

  lemma PoolAfterDut(f: Facts, v6: bool, k: nat, pool: map<Device, Network>)
    requires k < |f.duts| && TemplateOf(f, f.duts[k]).Some? && PoolTable(f, v6, k, 0, pool)
    ensures PoolTable(f, v6, k + 1, 0, Entered(pool, f.duts[k], TemplateOf(f, f.duts[k]).value.P2p(v6)))
  {
    assert f.duts[..k + 1] == f.duts[..k] + [f.duts[k]];
    var pool' := Entered(pool, f.duts[k], TemplateOf(f, f.duts[k]).value.P2p(v6));
    forall d ensures Lookup(pool', d) == PoolOf(f, v6, k + 1, 0, d) {
      assert Lookup(pool, d) == PoolOf(f, v6, k, 0, d);
    }
  }

  lemma PoolAfterTg(f: Facts, v6: bool, j: nat, pool: map<Device, Network>)
    requires j < |f.tgs| && PoolTable(f, v6, |f.duts|, j, pool)
    ensures PoolTable(f, v6, |f.duts|, j + 1, Entered(pool, f.tgs[j], f.tgTemplate.P2p(v6)))
  {
    assert f.tgs[..j + 1] == f.tgs[..j] + [f.tgs[j]];
    var pool' := Entered(pool, f.tgs[j], f.tgTemplate.P2p(v6));
    forall d ensures Lookup(pool', d) == PoolOf(f, v6, |f.duts|, j + 1, d) {
      assert Lookup(pool, d) == PoolOf(f, v6, |f.duts|, j, d);
    }
  }

  lemma PoolsAre(f: Facts, v6: bool, pool: map<Device, Network>)
    requires PoolTable(f, v6, |f.duts|, |f.tgs|, pool)
    ensures pool == Pools(f, v6)
  {
    forall d ensures d in pool <==> d in Pools(f, v6)
      ensures d in pool ==> pool[d] == Pools(f, v6)[d]
    {
      assert Lookup(pool, d) == PoolOf(f, v6, |f.duts|, |f.tgs|, d);
    }
  }

  function Pools(f: Facts, v6: bool): map<Device, Network> {
    map d | d in Elems(f.duts) + Elems(f.tgs) && PoolOf(f, v6, |f.duts|, |f.tgs|, d).Some?
          :: PoolOf(f, v6, |f.duts|, |f.tgs|, d).value
  }

  // ---- loopbacks and router ids ----

  datatype Loopbacks = Loopbacks(v4: Option<Network>, v6: Option<Network>, routerId: nat)

  /** The child after `index + 1` skipped ones, host prefixes being the children; None where the source raises. */
  function HostAfter(n: Network, index: nat): Option<Network> {
    if index + 1 < SubnetCount(n, n.width) then Some(Subnet(n, n.width, index + 1)) else None
  }

  predicate HostMissing(n: Option<Network>, index: nat) {
    n.Some? && HostAfter(n.value, index).None?
  }

  function HostOf(n: Option<Network>, index: nat): Option<Network> {
    if n.None? then None else HostAfter(n.value, index)
  }

  function LoopbackOf(t: Template, index: nat): Option<Loopbacks> {
    if t.loopback4.None? && t.loopback6.None? then None
    else if HostMissing(t.loopback4, index) || HostMissing(t.loopback6, index) then None
    else if t.RouterPool().None? || HostMissing(t.RouterPool(), index) then None
    else Some(Loopbacks(HostOf(t.loopback4, index), HostOf(t.loopback6, index),
                        HostOf(t.RouterPool(), index).value.base))
  }

  function LoopbacksUpTo(f: Facts, k: nat): map<Device, Loopbacks>
    requires k <= |f.duts|
  {
    if k == 0 then map[]
    else
      var prev, t := LoopbacksUpTo(f, k - 1), TemplateOf(f, f.duts[k - 1]);
      if t.None? || LoopbackOf(t.value, k - 1).None? then prev
      else prev[f.duts[k - 1] := LoopbackOf(t.value, k - 1).value]
  }

  // ---- ASNs ----

  function AsnOf(t: Template, index: nat): Option<int> {
    if t.asnBase.None? then None
    else Some(t.asnBase.value + index * if t.asnStep.None? then 1 else t.asnStep.value)
  }

  function DutAsns(f: Facts, k: nat): map<Device, int>
    requires k <= |f.duts|
  {
    if k == 0 then map[]
    else
      var prev, t := DutAsns(f, k - 1), TemplateOf(f, f.duts[k - 1]);
      if t.None? || AsnOf(t.value, k - 1).None? then prev else prev[f.duts[k - 1] := AsnOf(t.value, k - 1).value]
  }

  function AllAsns(f: Facts, j: nat): map<Device, int>
    requires j <= |f.tgs|
  {
    if j == 0 then DutAsns(f, |f.duts|)
    else
      var prev := AllAsns(f, j - 1);
      if AsnOf(f.tgTemplate, j - 1).None? then prev else prev[f.tgs[j - 1] := AsnOf(f.tgTemplate, j - 1).value]
  }

  // ---- the whole setup ----

  predicate DutReady(f: Facts, i: nat)
    requires i < |f.duts|
  {
    var t := TemplateOf(f, f.duts[i]);
    t.Some? && LoopbackOf(t.value, i).Some? && t.value.asnBase.Some?
  }

  ghost predicate DutsReady(f: Facts, k: nat)
    requires k <= |f.duts|
  {
    forall i :: 0 <= i < k ==> DutReady(f, i)
  }

  /** Setting up the DUTs goes on behind DUT k, or stops there for good. */
  lemma NextDutReady(f: Facts, k: nat)
    requires k < |f.duts| && DutsReady(f, k)
    ensures DutReady(f, k) ==> DutsReady(f, k + 1)
    ensures !DutReady(f, k) ==> !DutsReady(f, |f.duts|)
  {
  }

  /** Nothing raises before the link search. */
  ghost predicate SetupOk(f: Facts) {
    && DutsReady(f, |f.duts|)
    && (f.tgs == [] || f.tgTemplate.asnBase.Some?)
  }

  /** The search's input. */
  function Setup(f: Facts, ports: map<Device, seq<Port>>, peer: map<End, End>): Testbed {
    Testbed(f.duts, f.tgs, ports, peer, Pools(f, false), Pools(f, true), AllAsns(f, |f.tgs|))
  }

  /** The link rows come from dictionaries: one row for each port of each table. */
  ghost predicate Tables(ports: map<Device, seq<Port>>, peer: map<End, End>) {
    && (forall d :: d in ports ==> Distinct(ports[d]))
    && (forall e: End :: e in peer <==> e.dev in ports && e.port in ports[e.dev])
  }

  lemma {:induction false} DutsHaveAsns(f: Facts, k: nat)
    requires k <= |f.duts| && DutsReady(f, k)
    ensures forall d :: d in f.duts[..k] ==> d in DutAsns(f, k)
  {
    if k == 0 {
    } else {
      DutsHaveAsns(f, k - 1);
      assert DutReady(f, k - 1);
      assert f.duts[..k] == f.duts[..k - 1] + [f.duts[k - 1]];
    }
  }

  lemma {:induction false} MembersHaveAsns(f: Facts, j: nat)
    requires SetupOk(f) && j <= |f.tgs|
    ensures forall d :: d in f.duts || d in f.tgs[..j] ==> d in AllAsns(f, j)
  {
    if j == 0 {
      DutsHaveAsns(f, |f.duts|);
      assert f.duts[..|f.duts|] == f.duts;
    } else {
      MembersHaveAsns(f, j - 1);
      assert f.tgs[..j] == f.tgs[..j - 1] + [f.tgs[j - 1]];
    }
  }

  // ---- what each device gets ----

  /** Base plus position times step, the step being 1 where the template gives none. */
  ghost predicate AsnAt(t: Template, index: nat, asn: int) {
    t.asnBase.Some? && asn == t.asnBase.value + (if t.asnStep.Some? then index * t.asnStep.value else index)
  }

  lemma {:induction false} DutAsnAt(f: Facts, k: nat, i: nat)
    requires Distinct(f.duts) && i < k <= |f.duts| && DutsReady(f, k)
    ensures TemplateOf(f, f.duts[i]).Some? && f.duts[i] in DutAsns(f, k)
    ensures AsnAt(TemplateOf(f, f.duts[i]).value, i, DutAsns(f, k)[f.duts[i]])
  {
    assert DutReady(f, k - 1) && DutReady(f, i);
    if i < k - 1 {
      DutAsnAt(f, k - 1, i);
      assert f.duts[i] != f.duts[k - 1];
    }
  }

  lemma {:induction false} DutAsnStays(f: Facts, j: nat, d: Device)
    requires j <= |f.tgs| && d !in f.tgs && d in DutAsns(f, |f.duts|)
    ensures d in AllAsns(f, j) && AllAsns(f, j)[d] == DutAsns(f, |f.duts|)[d]
  {
    if j > 0 { DutAsnStays(f, j - 1, d); }
  }

  lemma {:induction false} TgAsnAt(f: Facts, j: nat, i: nat)
    requires Distinct(f.tgs) && i < j <= |f.tgs| && f.tgTemplate.asnBase.Some?
    ensures f.tgs[i] in AllAsns(f, j) && AsnAt(f.tgTemplate, i, AllAsns(f, j)[f.tgs[i]])
  {
    if i < j - 1 {
      TgAsnAt(f, j - 1, i);
      assert f.tgs[i] != f.tgs[j - 1];
    }
  }

  /** The ASN of every device: its template's base plus its position in its own list times the step. */
  lemma AsnsByPosition(f: Facts, i: nat)
    requires SetupOk(f) && Distinct(f.duts) && Distinct(f.tgs)
    ensures i < |f.duts| && f.duts[i] !in f.tgs ==>
              && TemplateOf(f, f.duts[i]).Some? && f.duts[i] in AllAsns(f, |f.tgs|)
              && AsnAt(TemplateOf(f, f.duts[i]).value, i, AllAsns(f, |f.tgs|)[f.duts[i]])
    ensures i < |f.tgs| ==>
              f.tgs[i] in AllAsns(f, |f.tgs|) && AsnAt(f.tgTemplate, i, AllAsns(f, |f.tgs|)[f.tgs[i]])
  {
    if i < |f.duts| && f.duts[i] !in f.tgs {
      assert DutReady(f, i);
      DutAsnAt(f, |f.duts|, i);
      DutAsnStays(f, |f.tgs|, f.duts[i]);
    }
    if i < |f.tgs| { TgAsnAt(f, |f.tgs|, i); }
  }

  /** A host address of the pool, counted from its network address. */
  ghost predicate IsHost(pool: Network, index: nat, host: Network) {
    host == Network(pool.base + index, pool.width, pool.width)
  }

  lemma HostAfterIs(n: Network, index: nat)
    requires HostAfter(n, index).Some? && n.len <= n.width
    ensures IsHost(n, index + 1, HostAfter(n, index).value)
  {
    assert Pow2(0) == 1;
  }

  /**
   Loopbacks and router id of the DUT at a position: the hosts with the next number, the first DUT taking number 1.
   */
  ghost predicate LoopbacksAt(t: Template, index: nat, row: Loopbacks) {
    && (row.v4.Some? <==> t.loopback4.Some?) && (row.v6.Some? <==> t.loopback6.Some?)
    && (row.v4.Some? ==> IsHost(t.loopback4.value, index + 1, row.v4.value))
    && (row.v6.Some? ==> IsHost(t.loopback6.value, index + 1, row.v6.value))
    && (t.routerId.Some? ==> row.routerId == t.routerId.value.base + index + 1)
    && (t.routerId.None? ==> t.loopback4.Some? && row.routerId == t.loopback4.value.base + index + 1)
  }

  /** The pools are networks. */
  predicate Parsed(t: Template) {
    && (t.loopback4.Some? ==> t.loopback4.value.len <= t.loopback4.value.width)
    && (t.loopback6.Some? ==> t.loopback6.value.len <= t.loopback6.value.width)
    && (t.routerId.Some? ==> t.routerId.value.len <= t.routerId.value.width)
  }

  lemma LoopbackRow(t: Template, index: nat)
    requires Parsed(t) && LoopbackOf(t, index).Some?
    ensures LoopbacksAt(t, index, LoopbackOf(t, index).value)
  {
    if t.loopback4.Some? { HostAfterIs(t.loopback4.value, index); }
    if t.loopback6.Some? { HostAfterIs(t.loopback6.value, index); }
    HostAfterIs(t.RouterPool().value, index);
  }

  lemma {:induction false} LoopbacksByPosition(f: Facts, k: nat, i: nat)
    requires Distinct(f.duts) && i < k <= |f.duts| && DutsReady(f, k) && forall t :: t in f.dutTemplates ==> Parsed(t)
    ensures TemplateOf(f, f.duts[i]).Some? && f.duts[i] in LoopbacksUpTo(f, k)
    ensures LoopbacksAt(TemplateOf(f, f.duts[i]).value, i, LoopbacksUpTo(f, k)[f.duts[i]])
  {
    assert DutReady(f, k - 1) && DutReady(f, i);
    if i < k - 1 {
      LoopbacksByPosition(f, k - 1, i);
      assert f.duts[i] != f.duts[k - 1];
    } else {
      LoopbackRow(TemplateOf(f, f.duts[i]).value, i);
    }
  }

  /** The link pools: a generator is served from its own template's pool, and a DUT from the one of its template. */
  lemma PoolsByTemplate(f: Facts, ports: map<Device, seq<Port>>, peer: map<End, End>, d: Device)
    ensures var pool4, pool6 := Setup(f, ports, peer).pool4, Setup(f, ports, peer).pool6;
            && (d in f.tgs && f.tgTemplate.p2p4.Some? ==> Lookup(pool4, d) == f.tgTemplate.p2p4)
            && (d in f.tgs && f.tgTemplate.p2p6.Some? ==> Lookup(pool6, d) == f.tgTemplate.p2p6)
            && (d !in f.tgs && d in f.duts && TemplateOf(f, d).Some? ==>
                  Lookup(pool4, d) == TemplateOf(f, d).value.p2p4 && Lookup(pool6, d) == TemplateOf(f, d).value.p2p6)
            && (d !in f.tgs && d !in f.duts ==> d !in pool4 && d !in pool6)
  {
    assert f.tgs[..|f.tgs|] == f.tgs && f.duts[..|f.duts|] == f.duts;
  }

  /** Where setup does not raise, every testbed device has an ASN and the search can start. */
  lemma SetupReady(f: Facts, ports: map<Device, seq<Port>>, peer: map<End, End>)
    requires SetupOk(f) && Tables(ports, peer) && Distinct(f.tgs)
    ensures Setup(f, ports, peer).WellFormed()
  {
    MembersHaveAsns(f, |f.tgs|);
    assert f.tgs[..|f.tgs|] == f.tgs;
  }

  // ---- loopbacks are distinct ----

  ghost predicate SameOrDisjoint(a: Network, b: Network) {
    a.Valid() && b.Valid() && a.width == b.width && (a == b || !Overlap(a, b))
  }

  /** Hosts taken at different positions of one pool, or at any positions of disjoint pools, differ. */
  lemma HostsDiffer(a: Network, b: Network, i: nat, j: nat)
    requires SameOrDisjoint(a, b) && i != j && HostAfter(a, i).Some? && HostAfter(b, j).Some?
    ensures HostAfter(a, i).value.base != HostAfter(b, j).value.base
    ensures HostAfter(a, i).value.base != a.base
  {
    var x, y := HostAfter(a, i).value, HostAfter(b, j).value;
    assert Pow2(0) == 1;
    SubnetInside(a, a.width, i + 1);
    SubnetInside(b, b.width, j + 1);
    assert a.Contains(x.base) && b.Contains(y.base);
  }

  /**
   No two DUTs share a loopback address or a router id, if any two of the pools they
   are taken from are the same or disjoint; the pool's network address itself is never used.
   */
  lemma LoopbacksDistinct(f: Facts, i: nat, j: nat)
    requires i < |f.duts| && j < |f.duts| && i != j && DutReady(f, i) && DutReady(f, j)
    requires var s, t := TemplateOf(f, f.duts[i]).value, TemplateOf(f, f.duts[j]).value;
             && (s.loopback4.Some? && t.loopback4.Some? ==> SameOrDisjoint(s.loopback4.value, t.loopback4.value))
             && (s.loopback6.Some? && t.loopback6.Some? ==> SameOrDisjoint(s.loopback6.value, t.loopback6.value))
             && SameOrDisjoint(s.RouterPool().value, t.RouterPool().value)
    ensures var x := LoopbackOf(TemplateOf(f, f.duts[i]).value, i).value;
            var y := LoopbackOf(TemplateOf(f, f.duts[j]).value, j).value;
            && (x.v4.Some? && y.v4.Some? ==> x.v4.value.base != y.v4.value.base)
            && (x.v6.Some? && y.v6.Some? ==> x.v6.value.base != y.v6.value.base)
            && x.routerId != y.routerId
  {
    var s, t := TemplateOf(f, f.duts[i]).value, TemplateOf(f, f.duts[j]).value;
    if s.loopback4.Some? && t.loopback4.Some? { HostsDiffer(s.loopback4.value, t.loopback4.value, i, j); }
    if s.loopback6.Some? && t.loopback6.Some? { HostsDiffer(s.loopback6.value, t.loopback6.value, i, j); }
    HostsDiffer(s.RouterPool().value, t.RouterPool().value, i, j);
  }

  /** A shared loopback pool serves a testbed exactly when it has more addresses than there are DUTs. */
  lemma LoopbackPoolLasts(n: Network, count: nat)
    requires n.len <= n.width
    ensures (forall i: nat :: i < count ==> HostAfter(n, i).Some?) <==> count == 0 || count < Pow2(n.width - n.len)
  {
    assert Pow2(0) == 1;
    if count > 0 {
      assert HostAfter(n, count - 1).Some? <==> count < Pow2(n.width - n.len);
    }
  }
}
