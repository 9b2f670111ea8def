/** The VM names of ansible/generate_topo.py as text. */
module TopoNames {
  import opened Common
  import opened Topo
  import opened TopoProofs

  /** `{n:02d}`. */
  function TwoDigits(n: nat): string {
    if n < 10 then "0" + Decimal(n) else Decimal(n)
  }

  /** `str.upper` on ASCII letters. */
  function Upper(s: string): string {
    seq(|s|, i requires 0 <= i < |s| => if 'a' <= s[i] <= 'z' then (s[i] as int - 32) as char else s[i])
  }

  function VmName(nameId: nat, role: string): string {
    "ARISTA" + (TwoDigits(nameId) + Upper(role))
  }

  lemma {:induction false} DecimalStarts(n: nat)
    ensures n >= 10 ==> |Decimal(n)| >= 2
    ensures Decimal(n) != "" && (n > 0 ==> Decimal(n)[0] != '0')
  {
    if n >= 10 { DecimalStarts(n / 10); }
  }

  /** At least two digits, and the shortest of those that spell the number. */
  lemma TwoDigitsSpell(n: nat)
    ensures AllDigits(TwoDigits(n)) && Number(TwoDigits(n)) == n
    ensures |TwoDigits(n)| >= 2 && (|TwoDigits(n)| > 2 ==> TwoDigits(n)[0] != '0')
  {
    DecimalSpells(n);
    DecimalStarts(n);
    if n < 10 {
      var s := "0" + Decimal(n);
      assert Decimal(n) == [('0' as int + n) as char];
      assert s[..1] == "0" && "0"[..0] == "" && Number("0") == 0;
    }
  }

  lemma Meets(a: string, b: string, r: string, s: string)
    requires a + r == b + s && r != ""
    ensures |a| < |b| ==> r[0] == b[|a|]
  {
    if |a| < |b| {
      assert (a + r)[|a|] == r[0] && (b + s)[|a|] == b[|a|];
    }
  }

  /** Where the digits end, the role begins. */
  lemma DigitsEnd(a: string, b: string, r: string, s: string)
    requires AllDigits(a) && AllDigits(b) && a + r == b + s
    requires r != "" && !IsDigit(r[0]) && s != "" && !IsDigit(s[0])
    ensures a == b && r == s
  {
    Meets(a, b, r, s);
    Meets(b, a, s, r);
    assert (a + r)[..|a|] == a && (b + s)[..|b|] == b && (a + r)[|a|..] == r && (b + s)[|b|..] == s;
  }

  lemma UpperKeepsFirst(role: string)
    requires role != "" && !IsDigit(role[0])
    ensures Upper(role) != "" && !IsDigit(Upper(role)[0])
  {
  }

  lemma SameRest(x: string, y: string)
    requires "ARISTA" + x == "ARISTA" + y
    ensures x == y
  {
    assert ("ARISTA" + x)[6..] == x && ("ARISTA" + y)[6..] == y;
  }

  /** For roles that start with a letter, a name determines the number and the role in upper case. */
  lemma NameDetermines(m: nat, r: string, n: nat, s: string)
    requires r != "" && !IsDigit(r[0]) && s != "" && !IsDigit(s[0]) && VmName(m, r) == VmName(n, s)
    ensures m == n && Upper(r) == Upper(s)
  {
    TwoDigitsSpell(m);
    TwoDigitsSpell(n);
    UpperKeepsFirst(r);
    UpperKeepsFirst(s);
    SameRest(TwoDigits(m) + Upper(r), TwoDigits(n) + Upper(s));
    DigitsEnd(TwoDigits(m), TwoDigits(n), Upper(r), Upper(s));
  }

  predicate StartsWithLetter(role: string) {
    role != "" && !IsDigit(role[0])
  }

  /** Two VMs of a run share a name exactly when they share the number and, in upper case, the role. */
  lemma ShareNameExactly(c: Config, g: Globals, ports: seq<int>, i: nat, j: nat)
    requires g.Legal() && !Run(c, g, ports).failed && i < j < |Run(c, g, ports).vms|
    requires StartsWithLetter(Run(c, g, ports).vms[i].role) && StartsWithLetter(Run(c, g, ports).vms[j].role)
    ensures var a, b := Run(c, g, ports).vms[i], Run(c, g, ports).vms[j];
            VmName(a.nameId, a.role) == VmName(b.nameId, b.role) <==>
            a.nameId == b.nameId && a.role != b.role && Upper(a.role) == Upper(b.role)
  {
    VmsNumbered(c, g, ports, i, j);
    var a, b := Run(c, g, ports).vms[i], Run(c, g, ports).vms[j];
    if VmName(a.nameId, a.role) == VmName(b.nameId, b.role) {
      NameDetermines(a.nameId, a.role, b.nameId, b.role);
    }
  }

  /** So names are unique as text when no two roles of the run differ in the case of letters only. */
  lemma VmNamesDistinct(c: Config, g: Globals, ports: seq<int>)
    requires g.Legal() && !Run(c, g, ports).failed
    requires forall a, b :: a in Run(c, g, ports).vms && b in Run(c, g, ports).vms ==>
               StartsWithLetter(a.role) && (Upper(a.role) == Upper(b.role) ==> a.role == b.role)
    ensures var vms := Run(c, g, ports).vms;
            forall i, j :: 0 <= i < j < |vms| ==>
              VmName(vms[i].nameId, vms[i].role) != VmName(vms[j].nameId, vms[j].role)
  {
    var vms := Run(c, g, ports).vms;
    forall i, j | 0 <= i < j < |vms|
      ensures VmName(vms[i].nameId, vms[i].role) != VmName(vms[j].nameId, vms[j].role)
    {
      ShareNameExactly(c, g, ports, i, j);
    }
  }

  // ---- a run whose roles differ in case only ----

  /** One uplink port and one peer port. */
  const CASES: Config := Config(
    Some(Role("t1", 0, 1)), Some(Role("T1", 0, 1)), None, None,
    [Single(0)], [1], [], [], [], [],
    1, 1, 1, 1, 1, false)

  lemma CasesPlans()
    ensures PlanOf(CASES, 0) == Some(Plan(Up, CASES.uplink, 1, 1))
    ensures PlanOf(CASES, 1) == Some(Plan(Peer, CASES.peer, 1, 1))
  {
    assert CASES.uplinkPorts[0] == Single(0);
  }

  /** A port with one link and a role opens one VM, numbered next in its role. */
  lemma OneLinkPort(s: State, port: int, role: string)
    requires !s.failed && s.lagged == {} && s.off4 == 0 && s.off6 == 0 && s.start < 250
    requires port == 0 || port == 1
    requires role == if port == 0 then "t1" else "T1"
    ensures var r := VisitPort(CASES, s, port);
            && !r.failed && r.lagged == {} && r.off4 == 0 && r.off6 == 0 && r.start == s.start + 1
            && |r.vms| == |s.vms| + 1 && r.vms[..|s.vms|] == s.vms
            && r.vms[|s.vms|].role == role && r.vms[|s.vms|].nameId == Count(s.roleCount, role) + 1
            && r.roleCount == s.roleCount[role := Count(s.roleCount, role) + 1]
  {
    CasesPlans();
    var plan := PlanOf(CASES, port).value;
    var t := if plan.kind.Up? then s.(breakout := Some(plan.links)) else s;
    var r := VisitLink(CASES, t, plan, port, s.start);
    assert r == MakeVm(t, plan.kind, [s.start], plan.role.value, s.start, 0);
    assert VisitLinks(CASES, t, plan, port, s.start, s.start + 1) == r;
  }

  lemma CasesRun(s: State)
    requires !s.failed && s.lagged == {} && s.off4 == 0 && s.off6 == 0 && s.start == 0
    requires s.vms == [] && s.roleCount == map[]
    ensures var r := VisitPorts(CASES, s, [0, 1]);
            && !r.failed && |r.vms| == 2
            && r.vms[0].role == "t1" && r.vms[0].nameId == 1 && r.vms[1].role == "T1" && r.vms[1].nameId == 1
  {
    OneLinkPort(s, 0, "t1");
    var a := VisitPort(CASES, s, 0);
    assert Count(a.roleCount, "T1") == 0;
    OneLinkPort(a, 1, "T1");
    var b := VisitPort(CASES, a, 1);
    assert b.vms[0] == b.vms[..1][0] == a.vms[0];
    assert [0, 1][1..] == [1] && [1][1..] == [];
    assert VisitPorts(CASES, s, [0, 1]) == VisitPorts(CASES, a, [1]) == VisitPorts(CASES, b, []);
  }

  lemma CasesName()
    ensures VmName(1, "t1") == VmName(1, "T1") == "ARISTA01T1"
  {
    assert Upper("t1") == "T1" == Upper("T1");
    assert Decimal(1) == "1" && TwoDigits(1) == "01";
  }

  /** Both VMs of this run are called ARISTA01T1. */
  lemma CaseOnlyRolesShareName(asns: Counters)
    ensures var r := Run(CASES, Fresh(asns), [0, 1]);
            && !r.failed && |r.vms| == 2 && r.vms[0].role != r.vms[1].role
            && VmName(r.vms[0].nameId, r.vms[0].role) == VmName(r.vms[1].nameId, r.vms[1].role) == "ARISTA01T1"
  {
    CasesRun(Init(Fresh(asns)));
    CasesName();
  }
}
