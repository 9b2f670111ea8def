/** `TestbedValidator.validate` of ansible/verify_config.py: one pass against tables of the testbeds seen so far. */
module Validator {
  import opened Common

  /**
   A testbed with the answers of the checks that look at it alone and at other files: required attributes,
   topology in the variable files and in the VM file, server in the VM file, PTF entry in the inventory (asked only
   where an inventory is named), VM base on its server (asked only where a VM base is given).
   */
  datatype Testbed = Testbed(
    conf: string, group: string, ptfIp: string, server: string, vmBase: string, topo: string,
    attributes: bool, topoInVars: bool, topoInVmFile: bool, serverInVmFile: bool,
    hasInventory: bool, ptfInInventory: bool, vmsOnServer: bool)

  /** The number of VMs a topology declares. */
  type VmCount = string -> nat

  /** `_parse_start`: the digits of the VM base read as a number; None where `int('')` raises. */
  function ParseStart(vmBase: string): Option<nat> {
    DigitsAreDigits(vmBase);
    NumberOfDigits(Digits(vmBase));
    if Digits(vmBase) == "" then None else Some(Number(Digits(vmBase)))
  }

  datatype VmRange = VmRange(start: int, end: int)
  {
    /** `occupied.__contains__(range)`: the bounds do not pass each other. */
    predicate Overlaps(r: VmRange) {
      !(end < r.start || r.end < start)
    }

    ghost predicate Has(vm: int) {
      start <= vm <= end
    }
  }

  function RangeOf(t: Testbed, numVm: VmCount): VmRange
    requires ParseStart(t.vmBase).Some?
  {
    var start := ParseStart(t.vmBase).value;
    VmRange(start, start + numVm(t.topo) - 1)
  }

  /** For ranges that are not empty, the bounds test is a shared VM. */
  lemma OverlapsIffShared(a: VmRange, b: VmRange)
    requires a.start <= a.end && b.start <= b.end
    ensures a.Overlaps(b) <==> exists vm :: a.Has(vm) && b.Has(vm)
  {
    if a.Overlaps(b) {
      var vm := if a.start < b.start then b.start else a.start;
      assert a.Has(vm) && b.Has(vm);
    }
  }

  // ---- what the pass means ----

  /** The testbed's VMs: as many as its topology declares, numbered from the VM base on. */
  ghost predicate UsesVm(t: Testbed, numVm: VmCount, vm: int) {
    ParseStart(t.vmBase).Some? && ParseStart(t.vmBase).value <= vm < ParseStart(t.vmBase).value + numVm(t.topo)
  }

  lemma RangeHoldsVms(t: Testbed, numVm: VmCount)
    requires ParseStart(t.vmBase).Some?
    ensures forall vm :: RangeOf(t, numVm).Has(vm) <==> UsesVm(t, numVm, vm)
  {
  }

  lemma {:induction false} NoDigits(s: string)
    requires forall c :: c in s ==> !IsDigit(c)
    ensures Digits(s) == ""
  {
    if s != "" { NoDigits(s[1..]); }
  }

  lemma {:induction false} AllDigitsStay(s: string)
    requires forall c :: c in s ==> IsDigit(c)
    ensures Digits(s) == s
  {
    if s != "" {
      AllDigitsStay(s[1..]);
      assert s == [s[0]] + s[1..];
    }
  }

  lemma Reassociated(a: string, b: string, c: string)
    ensures a + (b + c) == (a + b) + c
  {
  }

  lemma {:induction false} DigitsConcat(a: string, b: string)
    ensures Digits(a + b) == Digits(a) + Digits(b)
  {
    if a == "" {
      assert a + b == b;
    } else {
      var head := if IsDigit(a[0]) then [a[0]] else [];
      assert (a + b)[1..] == a[1..] + b;
      DigitsConcat(a[1..], b);
      Reassociated(head, Digits(a[1..]), Digits(b));
    }
  }

  lemma DigitsBehindLetters(letters: string, digits: string)
    requires (forall c :: c in letters ==> !IsDigit(c)) && forall c :: c in digits ==> IsDigit(c)
    ensures Digits(letters + digits) == digits
  {
    DigitsConcat(letters, digits);
    NoDigits(letters);
    AllDigitsStay(digits);
    assert "" + digits == digits;
  }

  /** The number behind the letters of a VM base, with or without leading zeros; letters alone are no number. */
  lemma StartOfVmBase(letters: string, digits: string, vmBase: string)
    requires (forall c :: c in letters ==> !IsDigit(c)) && AllDigits(digits) && vmBase == letters + digits
    ensures digits == "" ==> ParseStart(vmBase).None?
    ensures digits != "" ==> Number(digits) >= 0 && ParseStart(vmBase) == Some(Number(digits))
  {
    DigitsBehindLetters(letters, digits);
    NumberOfDigits(digits);
  }

  /** So a VM base that is made of letters and a written number is read as that number. */
  lemma WrittenVmBase(letters: string, n: nat)
    requires forall c :: c in letters ==> !IsDigit(c)
    ensures ParseStart(letters + Decimal(n)) == Some(n)
  {
    DecimalSpells(n);
    StartOfVmBase(letters, Decimal(n), letters + Decimal(n));
  }

  ghost predicate Alone(t: Testbed, numVm: VmCount) {
    && t.attributes && |t.group| <= 8
    && t.topoInVars && t.topoInVmFile && t.serverInVmFile
    && (t.hasInventory ==> t.ptfInInventory)
    && (t.vmBase != "" ==> numVm(t.topo) != 0 && t.vmsOnServer)
  }

  /** A VM that both testbeds would use. */
  ghost predicate ShareVm(a: Testbed, b: Testbed, numVm: VmCount) {
    exists vm :: a.vmBase != "" && b.vmBase != "" && UsesVm(a, numVm, vm) && UsesVm(b, numVm, vm)
  }

  lemma ShareVmInRanges(a: Testbed, b: Testbed, numVm: VmCount)
    requires HasRange(a) && HasRange(b)
    ensures ShareVm(a, b, numVm) <==> exists vm :: RangeOf(a, numVm).Has(vm) && RangeOf(b, numVm).Has(vm)
  {
    RangeHoldsVms(a, numVm);
    RangeHoldsVms(b, numVm);
    if ShareVm(a, b, numVm) {
      var vm :| UsesVm(a, numVm, vm) && UsesVm(b, numVm, vm);
      assert RangeOf(a, numVm).Has(vm) && RangeOf(b, numVm).Has(vm);
    }
    if vm :| RangeOf(a, numVm).Has(vm) && RangeOf(b, numVm).Has(vm) {
      assert UsesVm(a, numVm, vm) && UsesVm(b, numVm, vm);
    }
  }

  /** Two testbeds of the list fit together. */
  ghost predicate Compatible(a: Testbed, b: Testbed, numVm: VmCount) {
    && a.conf != b.conf
    && (a.group == b.group ==> a.ptfIp == b.ptfIp && a.server == b.server && a.vmBase == b.vmBase)
    && !ShareVm(a, b, numVm)
  }

  ghost predicate Consistent(ts: seq<Testbed>, numVm: VmCount) {
    && (forall i :: 0 <= i < |ts| ==> Alone(ts[i], numVm))
    && (forall i, j :: 0 <= i < j < |ts| ==> Compatible(ts[i], ts[j], numVm))
  }

  predicate HasRange(t: Testbed) {
    t.vmBase != "" && ParseStart(t.vmBase).Some?
  }

  /** Every VM base that is given can be read as a number. */
  ghost predicate Readable(ts: seq<Testbed>) {
    forall t :: t in ts && t.vmBase != "" ==> HasRange(t)
  }

  // ---- the tables ----

  datatype GroupRow = GroupRow(conf: string, ptfIp: string, server: string, vmBase: string)

  function RowOf(t: Testbed): GroupRow {
    GroupRow(t.conf, t.ptfIp, t.server, t.vmBase)
  }

  /** The group table holds a testbed of each group, and misses none. */
  ghost predicate GroupTable(ts: seq<Testbed>, groups: map<string, GroupRow>) {
    && (forall t :: t in ts ==> t.group in groups)
    && (forall g :: g in groups ==> exists t :: t in ts && t.group == g && groups[g] == RowOf(t))
  }

  /** The range table holds the range of a testbed of each name that has one, and misses none. */
  ghost predicate RangeTable(ts: seq<Testbed>, ranges: map<string, VmRange>, numVm: VmCount) {
    && (forall t :: t in ts && t.vmBase != "" ==> t.conf in ranges)
    && (forall n :: n in ranges ==> exists t :: t in ts && t.conf == n && HasRange(t) && ranges[n] == RangeOf(t, numVm))
  }

  class Assertion {
    var passValidation: bool

    constructor ()
      ensures passValidation
    {
      passValidation := true;
    }

    method AssertTrue(value: bool)
      modifies this
      ensures passValidation == (old(passValidation) && value)
    {
      if !value {
        passValidation := false;
      }
    }
  }

  predicate GroupMatches(groups: map<string, GroupRow>, t: Testbed) {
    t.group !in groups
    || (t.ptfIp == groups[t.group].ptfIp && t.server == groups[t.group].server && t.vmBase == groups[t.group].vmBase)
  }

  /** `_vm_base_must_not_overlap`, a loop over the range table. */
  method MustNotOverlap(range: VmRange, ranges: map<string, VmRange>) returns (valid: bool)
    ensures valid <==> forall n :: n in ranges ==> !ranges[n].Overlaps(range)
  {
    valid := true;
    var names := ranges.Keys;
    while names != {}
      invariant names <= ranges.Keys
      invariant valid <==> forall n :: n in ranges && n !in names ==> !ranges[n].Overlaps(range)
      decreases names
    {
      var n :| n in names;
      names := names - {n};
      if ranges[n].Overlaps(range) {
        valid := false;
      }
    }
  }

  /** Two testbeds of a consistent list fit together, in whichever order they stand. */
  lemma PairCompatible(ts: seq<Testbed>, a: Testbed, b: Testbed, numVm: VmCount)
    requires Consistent(ts, numVm) && a in ts && b in ts
    ensures a == b || Compatible(a, b, numVm) || Compatible(b, a, numVm)
    ensures Alone(a, numVm)
  {
    var i :| 0 <= i < |ts| && ts[i] == a;
    var j :| 0 <= j < |ts| && ts[j] == b;
    assert i < j ==> Compatible(ts[i], ts[j], numVm);
    assert j < i ==> Compatible(ts[j], ts[i], numVm);
  }

  ghost predicate SameAttributes(a: Testbed, b: Testbed) {
    a.ptfIp == b.ptfIp && a.server == b.server && a.vmBase == b.vmBase
  }

  /** Checking against the stored testbed of the group is checking against the whole group. */
  lemma GroupCheckSuffices(ts: seq<Testbed>, groups: map<string, GroupRow>, t: Testbed, numVm: VmCount)
    requires Consistent(ts, numVm) && GroupTable(ts, groups)
    ensures GroupMatches(groups, t) <==> forall x :: x in ts && x.group == t.group ==> SameAttributes(x, t)
  {
    if t.group in groups {
      var stored :| stored in ts && stored.group == t.group && groups[t.group] == RowOf(stored);
      forall x | x in ts && x.group == t.group ensures SameAttributes(x, stored) {
        PairCompatible(ts, x, stored, numVm);
      }
    }
  }

  /** While names are unique the range table misses nobody. */
  lemma StoredRange(ts: seq<Testbed>, ranges: map<string, VmRange>, x: Testbed, numVm: VmCount)
    requires Consistent(ts, numVm) && RangeTable(ts, ranges, numVm) && x in ts && HasRange(x)
    ensures x.conf in ranges && ranges[x.conf] == RangeOf(x, numVm) && numVm(x.topo) != 0
  {
    var stored :| stored in ts && stored.conf == x.conf && HasRange(stored) && ranges[x.conf] == RangeOf(stored, numVm);
    PairCompatible(ts, x, stored, numVm);
  }

  lemma RangeCheckSuffices(ts: seq<Testbed>, ranges: map<string, VmRange>, t: Testbed, numVm: VmCount)
    requires Consistent(ts, numVm) && RangeTable(ts, ranges, numVm) && HasRange(t) && numVm(t.topo) != 0
    ensures (forall n :: n in ranges ==> !ranges[n].Overlaps(RangeOf(t, numVm)))
            <==> forall x :: x in ts && HasRange(x) ==> !ShareVm(x, t, numVm)
  {
    forall x | x in ts && HasRange(x)
      ensures x.conf in ranges && (ranges[x.conf].Overlaps(RangeOf(t, numVm)) <==> ShareVm(x, t, numVm))
    {
      StoredRange(ts, ranges, x, numVm);
      OverlapsIffShared(RangeOf(x, numVm), RangeOf(t, numVm));
      ShareVmInRanges(x, t, numVm);
    }
    forall n | n in ranges ensures exists x :: x in ts && x.conf == n && HasRange(x) {
    }
  }

  /** One more testbed keeps the list consistent exactly when it passes its own checks and fits every earlier one. */
  lemma ConsistentStep(ts: seq<Testbed>, t: Testbed, numVm: VmCount)
    ensures Consistent(ts + [t], numVm) <==>
            Consistent(ts, numVm) && Alone(t, numVm) && forall x :: x in ts ==> Compatible(x, t, numVm)
  {
    var all := ts + [t];
    assert all[|ts|] == t && forall i :: 0 <= i < |ts| ==> all[i] == ts[i];
    if Consistent(all, numVm) {
      assert Alone(all[|ts|], numVm);
      forall i | 0 <= i < |ts| ensures Alone(ts[i], numVm) && Compatible(ts[i], t, numVm) {
        assert Alone(all[i], numVm) && Compatible(all[i], all[|ts|], numVm);
      }
      forall i, j | 0 <= i < j < |ts| ensures Compatible(ts[i], ts[j], numVm) {
        assert Compatible(all[i], all[j], numVm);
      }
    }
  }

  lemma GroupTableStep(ts: seq<Testbed>, t: Testbed, groups: map<string, GroupRow>)
    requires GroupTable(ts, groups)
    ensures GroupTable(ts + [t], groups[t.group := RowOf(t)])
  {
    var all, groups' := ts + [t], groups[t.group := RowOf(t)];
    assert t in all;
    forall g | g in groups' ensures exists x :: x in all && x.group == g && groups'[g] == RowOf(x) {
      if g != t.group {
        var x :| x in ts && x.group == g && groups[g] == RowOf(x);
        assert x in all;
      }
    }
  }

  function NextRanges(t: Testbed, ranges: map<string, VmRange>, numVm: VmCount): map<string, VmRange>
    requires t.vmBase != "" ==> HasRange(t)
  {
    if t.vmBase != "" then ranges[t.conf := RangeOf(t, numVm)] else ranges
  }

  lemma RangeTableStep(ts: seq<Testbed>, t: Testbed, ranges: map<string, VmRange>, numVm: VmCount)
    requires RangeTable(ts, ranges, numVm) && (t.vmBase != "" ==> HasRange(t))
    ensures RangeTable(ts + [t], NextRanges(t, ranges, numVm), numVm)
  {
    var all, ranges' := ts + [t], NextRanges(t, ranges, numVm);
    assert t in all;
    forall n | n in ranges' ensures exists x ::
        x in all && x.conf == n && HasRange(x) && ranges'[n] == RangeOf(x, numVm) {
      if t.vmBase == "" || n != t.conf {
        var x :| x in ts && x.conf == n && HasRange(x) && ranges[n] == RangeOf(x, numVm);
        assert x in all;
      }
    }
  }

  ghost function Names(ts: seq<Testbed>): set<string> {
    set t | t in ts :: t.conf
  }

  lemma NamesGrow(ts: seq<Testbed>, t: Testbed)
    ensures Names(ts + [t]) == Names(ts) + {t.conf}
    ensures Readable(ts + [t]) <==> Readable(ts) && (t.vmBase != "" ==> HasRange(t))
  {
    var all := ts + [t];
    assert t in all && forall x :: x in ts ==> x in all;
  }

  /** The checks against the tables together decide whether the testbed fits all earlier ones. */
  lemma StepChecksSuffice(ts: seq<Testbed>, t: Testbed, groups: map<string, GroupRow>,
                          ranges: map<string, VmRange>, numVm: VmCount)
    requires Consistent(ts, numVm) && Readable(ts) && (t.vmBase != "" ==> HasRange(t)) && Alone(t, numVm)
    requires GroupTable(ts, groups) && RangeTable(ts, ranges, numVm)
    ensures (forall x :: x in ts ==> Compatible(x, t, numVm)) <==>
            t.conf !in Names(ts) && GroupMatches(groups, t)
            && (t.vmBase != "" ==> forall n :: n in ranges ==> !ranges[n].Overlaps(RangeOf(t, numVm)))
  {
    FitsAll(ts, t, numVm);
    GroupCheckSuffices(ts, groups, t, numVm);
    if t.vmBase != "" {
      RangeCheckSuffices(ts, ranges, t, numVm);
    }
  }

  /** Fitting every earlier testbed, condition by condition. */
  lemma FitsAll(ts: seq<Testbed>, t: Testbed, numVm: VmCount)
    requires Readable(ts) && (t.vmBase != "" ==> HasRange(t))
    ensures (forall x :: x in ts ==> Compatible(x, t, numVm)) <==>
            && t.conf !in Names(ts)
            && (forall x :: x in ts && x.group == t.group ==> SameAttributes(x, t))
            && (t.vmBase != "" ==> forall x :: x in ts && HasRange(x) ==> !ShareVm(x, t, numVm))
  {
    forall x | x in ts
      ensures Compatible(x, t, numVm) <==>
              && x.conf != t.conf && (x.group == t.group ==> SameAttributes(x, t))
              && (t.vmBase != "" && HasRange(x) ==> !ShareVm(x, t, numVm))
    {
    }
  }

  /** Everything the loop keeps about the testbeds seen so far. */
  ghost predicate Tables(ts: seq<Testbed>, names: set<string>, groups: map<string, GroupRow>,
                         ranges: map<string, VmRange>, numVm: VmCount) {
    && Readable(ts) && names == Names(ts)
    && GroupTable(ts, groups) && RangeTable(ts, ranges, numVm)
  }

  lemma TablesStep(ts: seq<Testbed>, t: Testbed, names: set<string>, groups: map<string, GroupRow>,
                   ranges: map<string, VmRange>, numVm: VmCount)
    requires Tables(ts, names, groups, ranges, numVm) && (t.vmBase != "" ==> HasRange(t))
    ensures Tables(ts + [t], names + {t.conf}, groups[t.group := RowOf(t)], NextRanges(t, ranges, numVm), numVm)
  {
    NamesGrow(ts, t);
    GroupTableStep(ts, t, groups);
    RangeTableStep(ts, t, ranges, numVm);
  }

  /** A testbed whose VM base cannot be read makes every list that holds it unreadable. */
  lemma Unreadable(ts: seq<Testbed>, t: Testbed)
    requires t in ts && t.vmBase != "" && !HasRange(t)
    ensures !Readable(ts)
  {
  }

  /** What one pass through the loop body asks of a testbed. */
  ghost predicate Checks(t: Testbed, names: set<string>, groups: map<string, GroupRow>,
                         ranges: map<string, VmRange>, numVm: VmCount)
    requires t.vmBase != "" ==> HasRange(t)
  {
    && Alone(t, numVm) && t.conf !in names && GroupMatches(groups, t)
    && (t.vmBase != "" ==> forall n :: n in ranges ==> !ranges[n].Overlaps(RangeOf(t, numVm)))
  }

  /** The checks against the tables decide whether the longer list is consistent. */
  lemma ChecksDecide(ts: seq<Testbed>, t: Testbed, names: set<string>, groups: map<string, GroupRow>,
                     ranges: map<string, VmRange>, numVm: VmCount)
    requires Tables(ts, names, groups, ranges, numVm) && (t.vmBase != "" ==> HasRange(t))
    ensures Consistent(ts + [t], numVm) <==> Consistent(ts, numVm) && Checks(t, names, groups, ranges, numVm)
  {
    ConsistentStep(ts, t, numVm);
    if Consistent(ts, numVm) && Alone(t, numVm) {
      StepChecksSuffice(ts, t, groups, ranges, numVm);
    }
  }

  /** The checks of a testbed with VMs. */
  method CheckVms(assertion: Assertion, t: Testbed, ranges: map<string, VmRange>, numVm: VmCount)
    returns (finished: bool)
    requires t.vmBase != ""
    modifies assertion
    ensures finished <==> HasRange(t)
    ensures finished ==>
              assertion.passValidation
              == (old(assertion.passValidation) && numVm(t.topo) != 0 && t.vmsOnServer
                  && forall n :: n in ranges ==> !ranges[n].Overlaps(RangeOf(t, numVm)))
  {
    assertion.AssertTrue(numVm(t.topo) != 0);
    if ParseStart(t.vmBase).None? {
      return false;
    }
    var valid := MustNotOverlap(RangeOf(t, numVm), ranges);
    assertion.AssertTrue(valid);
    assertion.AssertTrue(t.vmsOnServer);
    finished := true;
  }

  /** The checks of the loop body, in order; false where reading the VM base raises. */
  method CheckTestbed(assertion: Assertion, t: Testbed, names: set<string>, groups: map<string, GroupRow>,
                      ranges: map<string, VmRange>, numVm: VmCount)
    returns (finished: bool)
    modifies assertion
    ensures finished <==> (t.vmBase != "" ==> HasRange(t))
    ensures finished ==>
              assertion.passValidation == (old(assertion.passValidation) && Checks(t, names, groups, ranges, numVm))
  {
    assertion.AssertTrue(t.attributes);
    assertion.AssertTrue(t.conf !in names);
    assertion.AssertTrue(|t.group| <= 8);
    assertion.AssertTrue(GroupMatches(groups, t));
    assertion.AssertTrue(t.topoInVars);
    assertion.AssertTrue(t.topoInVmFile);
    assertion.AssertTrue(t.serverInVmFile);
    if t.hasInventory {
      assertion.AssertTrue(t.ptfInInventory);
    }
    finished := true;
    if t.vmBase != "" {
      finished := CheckVms(assertion, t, ranges, numVm);
    }
  }

  /** The loop body, with `seen` the testbeds before t and `was` the flag before the first of them. */
  method ValidateOne(ghost seen: seq<Testbed>, t: Testbed, ghost next: seq<Testbed>, names: set<string>,
                     groups: map<string, GroupRow>, ranges: map<string, VmRange>, numVm: VmCount,
                     assertion: Assertion, ghost was: bool)
    returns (finished: bool, names': set<string>, groups': map<string, GroupRow>, ranges': map<string, VmRange>)
    requires Tables(seen, names, groups, ranges, numVm) && next == seen + [t]
    requires assertion.passValidation == (was && Consistent(seen, numVm))
    modifies assertion
    ensures finished <==> (t.vmBase != "" ==> HasRange(t))
    ensures finished ==> Tables(next, names', groups', ranges', numVm)
    ensures finished ==> assertion.passValidation == (was && Consistent(next, numVm))
  {
    names', groups', ranges' := names, groups, ranges;
    finished := CheckTestbed(assertion, t, names, groups, ranges, numVm);
    if finished {
      ChecksDecide(seen, t, names, groups, ranges, numVm);
      TablesStep(seen, t, names, groups, ranges, numVm);
      if t.vmBase != "" {
        ranges' := ranges[t.conf := RangeOf(t, numVm)];
      }
      names' := names + {t.conf};
      groups' := groups[t.group := RowOf(t)];
    }
  }

  lemma EmptyTables(numVm: VmCount)
    ensures Tables([], {}, map[], map[], numVm) && Consistent([], numVm)
  {
  }

  /**
   The whole pass. It finishes exactly when every given VM base can be read, and then leaves the flag set
   exactly when the testbeds are consistent: each one alone, and any two of them together.
   */
  method Validate(ts: seq<Testbed>, numVm: VmCount, assertion: Assertion) returns (finished: bool)
    modifies assertion
    ensures finished <==> Readable(ts)
    ensures finished ==> assertion.passValidation == (old(assertion.passValidation) && Consistent(ts, numVm))
  {
    var names: set<string>, groups: map<string, GroupRow>, ranges: map<string, VmRange> := {}, map[], map[];
    ghost var was, seen := assertion.passValidation, [];
    EmptyTables(numVm);
    for k := 0 to |ts|
      invariant seen == ts[..k] && Tables(seen, names, groups, ranges, numVm)
      invariant assertion.passValidation == (was && Consistent(seen, numVm))
    {
      ghost var next := ts[..k + 1];
      finished, names, groups, ranges := ValidateOne(seen, ts[k], next, names, groups, ranges, numVm, assertion, was);
      if !finished {
        Unreadable(ts, ts[k]);
        return;
      }
      seen := next;
    }
    assert seen == ts;
    finished := true;
  }

  /** A consequence that no single check states: testbeds with VMs never share a group. */
  lemma VmTestbedsHaveOwnGroups(ts: seq<Testbed>, numVm: VmCount, i: nat, j: nat)
    requires Consistent(ts, numVm) && Readable(ts) && i < j < |ts| && ts[i].vmBase != "" && ts[j].vmBase != ""
    ensures ts[i].group != ts[j].group
  {
    assert ts[i] in ts && ts[j] in ts && Alone(ts[i], numVm) && Alone(ts[j], numVm) && Compatible(ts[i], ts[j], numVm);
    SameBaseShares(ts[i], ts[j], numVm);
  }

  lemma SameBaseShares(a: Testbed, b: Testbed, numVm: VmCount)
    requires HasRange(a) && HasRange(b) && numVm(a.topo) != 0 && numVm(b.topo) != 0
    ensures a.vmBase == b.vmBase ==> ShareVm(a, b, numVm)
  {
    var start := ParseStart(a.vmBase).value;
    assert UsesVm(a, numVm, start);
    assert a.vmBase == b.vmBase ==> UsesVm(b, numVm, start);
  }
}
