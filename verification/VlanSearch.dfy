/** `TestBed.link_dut_related_devices` of ansible/devutil/testbed.py: devices reachable over the DUT's VLANs. */
module VlanSearch {
  import opened Common
  import opened LinkMap

  /** The link tables of an inventory, each in its iteration order. */
  type Tables = map<Device, seq<Link>>

  /** `list(itertools.chain(*ranges))`. */
  function Numbers(r: Range): (vs: seq<int>)
    ensures forall v :: v in vs <==> r.Has(v)
    decreases r.hi - r.lo
  {
    if r.lo >= r.hi then [] else [r.lo] + Numbers(Range(r.lo + 1, r.hi))
  }

  function Flatten(rs: seq<Range>): (vs: seq<int>)
    ensures forall v :: v in vs <==> exists i :: 0 <= i < |rs| && rs[i].Has(v)
  {
    if rs == [] then []
    else
      var init, last := rs[..|rs| - 1], rs[|rs| - 1];
      assert forall v :: (exists i :: 0 <= i < |rs| && rs[i].Has(v)) ==>
               last.Has(v) || exists i :: 0 <= i < |init| && init[i].Has(v);
      assert forall i :: 0 <= i < |init| ==> init[i] == rs[i];
      Flatten(init) + Numbers(last)
  }

  /** All VLAN ranges on the links of the DUT. */
  function DutRanges(links: seq<Link>): seq<Range> {
    if links == [] then [] else DutRanges(links[..|links| - 1]) + links[|links| - 1].vlans
  }

  /** The VLAN is on the link. */
  predicate OnLink(link: Link, v: int) {
    exists i :: 0 <= i < |link.vlans| && link.vlans[i].Has(v)
  }

  lemma {:induction false} InDutRanges(links: seq<Link>, r: Range)
    ensures r in DutRanges(links) <==> exists k :: 0 <= k < |links| && r in links[k].vlans
  {
    if links != [] {
      var init := links[..|links| - 1];
      InDutRanges(init, r);
      assert forall k :: 0 <= k < |init| ==> init[k] == links[k];
    }
  }

  /** The collected VLANs are those on any of the links. */
  lemma DutVlansAre(links: seq<Link>, v: int)
    ensures v in Flatten(DutRanges(links)) <==> exists k :: 0 <= k < |links| && OnLink(links[k], v)
  {
    var ranges := DutRanges(links);
    if v in Flatten(ranges) {
      var i :| 0 <= i < |ranges| && ranges[i].Has(v);
      InDutRanges(links, ranges[i]);
      var k :| 0 <= k < |links| && ranges[i] in links[k].vlans;
      assert OnLink(links[k], v);
    }
    if k :| 0 <= k < |links| && OnLink(links[k], v) {
      var i :| 0 <= i < |links[k].vlans| && links[k].vlans[i].Has(v);
      InDutRanges(links, links[k].vlans[i]);
      var j :| 0 <= j < |ranges| && ranges[j] == links[k].vlans[i];
      assert ranges[j].Has(v);
    }
  }

  /** The link shares a VLAN with some link of the DUT. */
  ghost predicate SharesVlan(dutLinks: seq<Link>, link: Link) {
    exists k, v :: 0 <= k < |dutLinks| && OnLink(dutLinks[k], v) && OnLink(link, v)
  }

  lemma CarriesIffShares(dutLinks: seq<Link>, link: Link)
    ensures Carries(Flatten(DutRanges(dutLinks)), link) <==> SharesVlan(dutLinks, link)
  {
    if Carries(Flatten(DutRanges(dutLinks)), link) {
      var v, i :| v in Flatten(DutRanges(dutLinks)) && 0 <= i < |link.vlans| && link.vlans[i].Has(v);
      DutVlansAre(dutLinks, v);
      assert OnLink(link, v);
    }
    if k, v :| 0 <= k < |dutLinks| && OnLink(dutLinks[k], v) && OnLink(link, v) {
      DutVlansAre(dutLinks, v);
      var i :| 0 <= i < |link.vlans| && link.vlans[i].Has(v);
    }
  }

  /** The link carries one of the DUT's VLANs. */
  ghost predicate Carries(dutVlans: seq<int>, link: Link) {
    exists v, i :: v in dutVlans && 0 <= i < |link.vlans| && link.vlans[i].Has(v)
  }

  /** The two nested loops with their breaks. */
  method HasDutVlan(dutVlans: seq<int>, link: Link) returns (found: bool)
    ensures found <==> Carries(dutVlans, link)
  {
    found := false;
    for i := 0 to |dutVlans|
      invariant !found
      invariant forall k, r :: 0 <= k < i && 0 <= r < |link.vlans| ==> !link.vlans[r].Has(dutVlans[k])
    {
      for r := 0 to |link.vlans|
        invariant !found
        invariant forall q :: 0 <= q < r ==> !link.vlans[q].Has(dutVlans[i])
      {
        if link.vlans[r].Has(dutVlans[i]) {
          assert dutVlans[i] in dutVlans;
          found := true;
          break;
        }
      }
      if found {
        break;
      }
    }
  }

  ghost predicate RangesMeet(a: Range, b: Range) {
    (if a.lo < b.lo then b.lo else a.lo) < (if a.hi < b.hi then a.hi else b.hi)
  }

  /** Testing the flattened numbers is testing the ranges for overlap. */
  lemma CarriesIffRangesMeet(dutRanges: seq<Range>, link: Link)
    ensures Carries(Flatten(dutRanges), link) <==>
            exists i, j :: 0 <= i < |dutRanges| && 0 <= j < |link.vlans| && RangesMeet(dutRanges[i], link.vlans[j])
  {
    if Carries(Flatten(dutRanges), link) {
      var v, j :| v in Flatten(dutRanges) && 0 <= j < |link.vlans| && link.vlans[j].Has(v);
      var i :| 0 <= i < |dutRanges| && dutRanges[i].Has(v);
      assert RangesMeet(dutRanges[i], link.vlans[j]);
    }
    if i, j :| 0 <= i < |dutRanges| && 0 <= j < |link.vlans| && RangesMeet(dutRanges[i], link.vlans[j]) {
      var v := if dutRanges[i].lo < link.vlans[j].lo then link.vlans[j].lo else dutRanges[i].lo;
      assert dutRanges[i].Has(v) && link.vlans[j].Has(v);
      assert v in Flatten(dutRanges);
    }
  }

  // ---- the search ----

  /** No link that carries a DUT VLAN leads out of S. */
  ghost predicate Closed(tables: Tables, dutVlans: seq<int>, S: set<Device>) {
    forall d, i :: d in S && d in tables && 0 <= i < |tables[d]| && Carries(dutVlans, tables[d][i]) ==>
      tables[d][i].endDevice in S
  }

  /** S is the least closed set that holds the DUT: the devices reachable from it. */
  ghost predicate Reachable(tables: Tables, dut: Device, dutVlans: seq<int>, S: set<Device>) {
    && dut in S && Closed(tables, dutVlans, S)
    && forall T :: dut in T && Closed(tables, dutVlans, T) ==> S <= T
  }

  ghost predicate InEveryClosed(tables: Tables, dut: Device, dutVlans: seq<int>, d: Device) {
    forall T :: dut in T && Closed(tables, dutVlans, T) ==> d in T
  }

  /** No link that shares a VLAN with the DUT's links leads out of S. */
  ghost predicate ClosedForDut(tables: Tables, dut: Device, S: set<Device>)
    requires dut in tables
  {
    forall d, i :: d in S && d in tables && 0 <= i < |tables[d]| && SharesVlan(tables[dut], tables[d][i]) ==>
      tables[d][i].endDevice in S
  }

  /** S is the least set that holds the DUT and is closed under its links' VLANs. */
  ghost predicate ReachableFromDut(tables: Tables, dut: Device, S: set<Device>)
    requires dut in tables
  {
    && dut in S && ClosedForDut(tables, dut, S)
    && forall T :: dut in T && ClosedForDut(tables, dut, T) ==> S <= T
  }

  ghost predicate InReach(tables: Tables, dut: Device, d: Device)
    requires dut in tables
  {
    forall T :: dut in T && ClosedForDut(tables, dut, T) ==> d in T
  }

  lemma ClosedIffForDut(tables: Tables, dut: Device, S: set<Device>)
    requires dut in tables
    ensures Closed(tables, Flatten(DutRanges(tables[dut])), S) <==> ClosedForDut(tables, dut, S)
  {
    forall d, i | d in S && d in tables && 0 <= i < |tables[d]|
      ensures Carries(Flatten(DutRanges(tables[dut])), tables[d][i]) <==> SharesVlan(tables[dut], tables[d][i])
    {
      CarriesIffShares(tables[dut], tables[d][i]);
    }
  }

  lemma ReachableIsForDut(tables: Tables, dut: Device, S: set<Device>)
    requires dut in tables
    ensures Reachable(tables, dut, Flatten(DutRanges(tables[dut])), S) <==> ReachableFromDut(tables, dut, S)
  {
    forall T ensures Closed(tables, Flatten(DutRanges(tables[dut])), T) <==> ClosedForDut(tables, dut, T) {
      ClosedIffForDut(tables, dut, T);
    }
  }

  lemma InEveryIsInReach(tables: Tables, dut: Device, d: Device)
    requires dut in tables
    ensures InEveryClosed(tables, dut, Flatten(DutRanges(tables[dut])), d) <==> InReach(tables, dut, d)
  {
    forall T ensures Closed(tables, Flatten(DutRanges(tables[dut])), T) <==> ClosedForDut(tables, dut, T) {
      ClosedIffForDut(tables, dut, T);
    }
  }

  /** Every link leads to a device with a link table, as `add_link` guarantees. */
  ghost predicate EndsListed(tables: Tables) {
    forall d, i :: d in tables && 0 <= i < |tables[d]| ==> tables[d][i].endDevice in tables
  }

  /** The first links of d that carry a DUT VLAN lead to visited devices. */
  ghost predicate Expanded(tables: Tables, dutVlans: seq<int>, d: Device, count: nat, visited: set<Device>) {
    d in tables && forall i :: 0 <= i < count && i < |tables[d]| && Carries(dutVlans, tables[d][i]) ==>
      tables[d][i].endDevice in visited
  }

  ghost predicate AllExpanded(tables: Tables, dutVlans: seq<int>, ds: set<Device>, visited: set<Device>) {
    forall d :: d in ds ==> d in tables && Expanded(tables, dutVlans, d, |tables[d]|, visited)
  }

  ghost predicate AllNeeded(tables: Tables, dut: Device, dutVlans: seq<int>, visited: set<Device>) {
    forall d :: d in visited ==> InEveryClosed(tables, dut, dutVlans, d)
  }

  /** Visited devices are the DUT and the linked ones; those neither pending nor `rest` are done. */
  ghost predicate Books(known: set<Device>, dut: Device, done: set<Device>, visited: set<Device>,
                        pending: seq<Device>, linked: seq<Device>) {
    && visited == {dut} + Elems(linked) && dut !in linked && Distinct(linked) && Elems(linked) <= known
    && visited == done + Elems(pending) && done !! Elems(pending) && Distinct(pending)
  }

  lemma AppendBooks(known: set<Device>, dut: Device, done: set<Device>, visited: set<Device>,
                    pending: seq<Device>, linked: seq<Device>, d: Device)
    requires Books(known, dut, done, visited, pending, linked) && d !in visited && d in known
    ensures Books(known, dut, done, visited + {d}, pending + [d], linked + [d])
  {
    assert Elems(pending + [d]) == Elems(pending) + {d} && Elems(linked + [d]) == Elems(linked) + {d};
  }

  /** The loop over the links of one device. */
  method Expand(tables: Tables, known: set<Device>, ghost dut: Device, dutVlans: seq<int>, ghost done: set<Device>,
                device: Device, visited0: set<Device>, pending0: seq<Device>, linked0: seq<Device>)
    returns (ok: bool, visited: set<Device>, pending: seq<Device>, linked: seq<Device>)
    requires device in tables && device in done && visited0 <= tables.Keys && EndsListed(tables)
    requires Books(known, dut, done, visited0, pending0, linked0)
    requires AllNeeded(tables, dut, dutVlans, visited0)
    ensures visited0 <= visited <= tables.Keys && AllNeeded(tables, dut, dutVlans, visited)
    ensures ok ==> Books(known, dut, done, visited, pending, linked)
    ensures ok ==> Expanded(tables, dutVlans, device, |tables[device]|, visited)
    ensures !ok ==> exists d :: d != dut && d !in known && d in visited
  {
    visited, pending, linked := visited0, pending0, linked0;
    var links := tables[device];
    for i := 0 to |links|
      invariant visited0 <= visited <= tables.Keys && AllNeeded(tables, dut, dutVlans, visited)
      invariant Books(known, dut, done, visited, pending, linked)
      invariant Expanded(tables, dutVlans, device, i, visited)
    {
      var found := HasDutVlan(dutVlans, links[i]);
      if found {
        var peer := links[i].endDevice;
        Needed(tables, dut, dutVlans, device, i);
        if peer !in visited {
          if peer !in known {
            visited := visited + {peer};
            return false, visited, pending, linked;
          }
          AppendBooks(known, dut, done, visited, pending, linked, peer);
          visited, pending, linked := visited + {peer}, pending + [peer], linked + [peer];
        }
      }
    }
    ok := true;
  }

  lemma Needed(tables: Tables, dut: Device, dutVlans: seq<int>, d: Device, i: nat)
    requires d in tables && i < |tables[d]| && Carries(dutVlans, tables[d][i])
    requires InEveryClosed(tables, dut, dutVlans, d)
    ensures InEveryClosed(tables, dut, dutVlans, tables[d][i].endDevice)
  {
  }

  /**
   The work-list loop; `known` are the devices of the inventory. It raises exactly when an unknown device
   is reachable, and otherwise lists each reachable device once, the DUT never.
   */
  method Search(tables: Tables, known: set<Device>, dut: Device, dutVlans: seq<int>)
    returns (ok: bool, linked: seq<Device>)
    requires dut in tables && EndsListed(tables)
    ensures ok ==> Distinct(linked) && dut !in linked && Elems(linked) <= known
    ensures ok ==> Reachable(tables, dut, dutVlans, {dut} + Elems(linked))
    ensures !ok ==> exists d :: d != dut && d !in known && InEveryClosed(tables, dut, dutVlans, d)
  {
    linked := [];
    var visited, pending := {dut}, [dut];
    ghost var done := {};
    while pending != []
      invariant visited <= tables.Keys && AllNeeded(tables, dut, dutVlans, visited)
      invariant Books(known, dut, done, visited, pending, linked)
      invariant AllExpanded(tables, dutVlans, done, visited)
      decreases tables.Keys - done
    {
      var device := pending[0];
      PopBooks(known, dut, done, visited, pending, linked);
      pending := pending[1..];
      ok, visited, pending, linked := Expand(tables, known, dut, dutVlans, done + {device}, device, visited, pending,
          linked);
      if !ok {
        return;
      }
      done := done + {device};
    }
    ok := true;
    FinishedReachable(tables, dut, dutVlans, visited);
  }

  lemma PopBooks(known: set<Device>, dut: Device, done: set<Device>, visited: set<Device>,
                 pending: seq<Device>, linked: seq<Device>)
    requires Books(known, dut, done, visited, pending, linked) && pending != []
    ensures Books(known, dut, done + {pending[0]}, visited, pending[1..], linked)
    ensures pending[0] in visited && pending[0] !in done
  {
    assert Elems(pending) == {pending[0]} + Elems(pending[1..]);
    assert pending[0] in Elems(pending);
  }

  lemma FinishedReachable(tables: Tables, dut: Device, dutVlans: seq<int>, visited: set<Device>)
    requires dut in visited && AllExpanded(tables, dutVlans, visited, visited)
    requires AllNeeded(tables, dut, dutVlans, visited)
    ensures Reachable(tables, dut, dutVlans, visited)
  {
  }

  /** The tables list the links of an index that was loaded from rows. */
  ghost predicate Lists(tables: Tables, rows: seq<Link>) {
    && tables.Keys == Load(rows).Keys
    && forall d, l :: d in tables && l in tables[d] ==> exists p :: Stored(Load(rows), d, p) && Load(rows)[d][p] == l
  }

  /** Whatever the link file holds, the search never meets a device without a link table. */
  lemma LoadedEndsListed(tables: Tables, rows: seq<Link>)
    requires Lists(tables, rows)
    ensures EndsListed(tables)
  {
    forall d, i | d in tables && 0 <= i < |tables[d]| ensures tables[d][i].endDevice in tables {
      assert tables[d][i] in tables[d];
      var p :| Stored(Load(rows), d, p) && Load(rows)[d][p] == tables[d][i];
      EndsHaveTables(rows, d, p);
    }
  }

  // ---- the node dictionaries ----

  datatype Kind = RootFanout | Fanout | Server | OtherDut | Unknown

  function KindOf(deviceType: string): Kind {
    if Contains(deviceType, "Root") then RootFanout
    else if Contains(deviceType, "Fanout") then Fanout
    else if deviceType == "Server" then Server
    else if Contains(deviceType, "Dev") then OtherDut
    else Unknown
  }

  /** A root fanout is no other fanout, a server is called just that, and everything else is a device or unknown. */
  lemma KindsByType(deviceType: string)
    ensures KindOf(deviceType) == RootFanout <==> Contains(deviceType, "Root")
    ensures KindOf(deviceType) == Fanout <==> Contains(deviceType, "Fanout") && !Contains(deviceType, "Root")
    ensures KindOf(deviceType) == Server <==> deviceType == "Server"
    ensures KindOf(deviceType) == Unknown <==>
            deviceType != "Server" && !Contains(deviceType, "Root") && !Contains(deviceType, "Fanout")
            && !Contains(deviceType, "Dev")
  {
    if deviceType == "Server" {
      ServerIsNoFanout();
    }
  }

  lemma ServerIsNoFanout()
    ensures !Contains("Server", "Root") && !Contains("Server", "Fanout")
  {
    forall i | 0 <= i <= 6 ensures !OccursAt("Root", "Server", i) && !OccursAt("Fanout", "Server", i) {
      if i + 4 <= 6 { assert "Server"[i..i + 4][0] == "Server"[i]; }
      if i + 6 <= 6 { assert "Server"[i..i + 6][0] == "Server"[i]; }
    }
  }

  function OfKind(types: map<Device, string>, ds: seq<Device>, kind: Kind): set<Device> {
    set d | d in ds && d in types && KindOf(types[d]) == kind
  }

  lemma OfKindGrows(types: map<Device, string>, ds: seq<Device>, i: nat, kind: Kind)
    requires i < |ds| && ds[i] in types
    ensures var before := OfKind(types, ds[..i], kind);
            OfKind(types, ds[..i + 1], kind) == if KindOf(types[ds[i]]) == kind then before + {ds[i]} else before
  {
    assert ds[..i + 1] == ds[..i] + [ds[i]];
  }

  class TestBed {
    var rootFanoutNodes: set<Device>
    var fanoutNodes: set<Device>
    var serverNodes: set<Device>
    var consoleNodes: set<Device>

    constructor ()
      ensures rootFanoutNodes == {} && fanoutNodes == {} && serverNodes == {} && consoleNodes == {}
    {
      rootFanoutNodes, fanoutNodes, serverNodes, consoleNodes := {}, {}, {}, {};
    }

    /** The loop over the linked devices; false at the first one whose type is unknown. */
    method FillNodes(types: map<Device, string>, found: seq<Device>) returns (ok: bool)
      requires Elems(found) <= types.Keys
      modifies `rootFanoutNodes, `fanoutNodes, `serverNodes
      ensures ok <==> forall d :: d in found ==> d in types && KindOf(types[d]) != Unknown
      ensures ok ==> && rootFanoutNodes == old(rootFanoutNodes) + OfKind(types, found, RootFanout)
                     && fanoutNodes == old(fanoutNodes) + OfKind(types, found, Fanout)
                     && serverNodes == old(serverNodes) + OfKind(types, found, Server)
    {
      for i := 0 to |found|
        invariant forall k :: 0 <= k < i ==> found[k] in types && KindOf(types[found[k]]) != Unknown
        invariant rootFanoutNodes == old(rootFanoutNodes) + OfKind(types, found[..i], RootFanout)
        invariant fanoutNodes == old(fanoutNodes) + OfKind(types, found[..i], Fanout)
        invariant serverNodes == old(serverNodes) + OfKind(types, found[..i], Server)
      {
        var d := found[i];
        assert d in Elems(found);
        OfKindGrows(types, found, i, RootFanout);
        OfKindGrows(types, found, i, Fanout);
        OfKindGrows(types, found, i, Server);
        match KindOf(types[d])
        case RootFanout => rootFanoutNodes := rootFanoutNodes + {d};
        case Fanout => fanoutNodes := fanoutNodes + {d};
        case Server => serverNodes := serverNodes + {d};
        case OtherDut =>
        case Unknown => return false;
      }
      assert found[..|found|] == found;
      ok := true;
    }

    /** `types` maps the hostnames of the inventory to device types; false where the source raises. */
    method LinkDutRelatedDevices(tables: Tables, types: map<Device, string>, dut: Device)
      returns (ok: bool, ghost linked: seq<Device>)
      requires EndsListed(tables)
      modifies this
      ensures dut !in tables ==> ok && unchanged(this)
      ensures dut in tables && ok ==>
                && Distinct(linked) && dut !in linked && ReachableFromDut(tables, dut, {dut} + Elems(linked))
                && (forall d :: d in linked ==> d in types && KindOf(types[d]) != Unknown)
                && rootFanoutNodes == old(rootFanoutNodes) + OfKind(types, linked, RootFanout)
                && fanoutNodes == old(fanoutNodes) + OfKind(types, linked, Fanout)
                && serverNodes == old(serverNodes) + OfKind(types, linked, Server)
                && consoleNodes == old(consoleNodes) + (if dut + "-console" in types then {dut + "-console"} else {})
      ensures dut in tables && !ok ==>
                exists d :: d != dut && (d in types ==> KindOf(types[d]) == Unknown) && InReach(tables, dut, d)
    {
      linked := [];
      if dut !in tables {
        return true, [];
      }
      var dutVlans := Flatten(DutRanges(tables[dut]));
      var found;
      ok, found := Search(tables, types.Keys, dut, dutVlans);
      if !ok {
        ghost var bad :| bad != dut && bad !in types && InEveryClosed(tables, dut, dutVlans, bad);
        InEveryIsInReach(tables, dut, bad);
        return;
      }
      ReachableIsForDut(tables, dut, {dut} + Elems(found));
      linked := found;
      ok := FillNodes(types, found);
      if !ok {
        var bad :| bad in found && KindOf(types[bad]) == Unknown;
        assert bad in {dut} + Elems(found);
        return;
      }
      if dut + "-console" in types {
        consoleNodes := consoleNodes + {dut + "-console"};
      }
    }
  }
}
