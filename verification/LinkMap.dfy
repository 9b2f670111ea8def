/** Device links and the bidirectional link index of ansible/devutil/device_inventory.py. */
module LinkMap {
  import opened Common

  type Device = string
  type Port = string

  /** A Python range: lo, lo + 1, ..., hi - 1. */
  datatype Range = Range(lo: int, hi: int)
  {
    predicate Has(v: int) { lo <= v < hi }
  }

  datatype Link = Link(
    startDevice: Device, startPort: Port, endDevice: Device, endPort: Port,
    bandwidth: int, vlans: seq<Range>, vlanMode: string, autoNeg: string)
  {
    function Reverse(): Link {
      Link(endDevice, endPort, startDevice, startPort, bandwidth, vlans, vlanMode, autoNeg)
    }

    /** One of the two ends is this port. */
    predicate Touches(d: Device, p: Port) {
      (startDevice == d && startPort == p) || (endDevice == d && endPort == p)
    }
  }

  /**
   The VLAN column of a row, already split at commas and dashes: one number is a single VLAN, two are an
   inclusive range, anything else is rejected.
   */
  method ParseVlanRanges(parts: seq<seq<int>>) returns (ranges: Option<seq<Range>>)
    ensures ranges.Some? <==> forall i: nat :: i < |parts| ==> 1 <= |parts[i]| <= 2
    ensures ranges.Some? ==> |ranges.value| == |parts|
    ensures ranges.Some? ==> forall i: nat, v: int :: i < |parts| ==>
              (ranges.value[i].Has(v) <==> parts[i][0] <= v <= parts[i][|parts[i]| - 1])
  {
    var out: seq<Range> := [];
    for i := 0 to |parts|
      invariant |out| == i
      invariant forall k :: 0 <= k < i ==> 1 <= |parts[k]| <= 2
      invariant forall k: nat, v: int :: k < i ==> (out[k].Has(v) <==> parts[k][0] <= v <= parts[k][|parts[k]| - 1])
    {
      if |parts[i]| == 1 {
        out := out + [Range(parts[i][0], parts[i][0] + 1)];
      } else if |parts[i]| == 2 {
        out := out + [Range(parts[i][0], parts[i][1] + 1)];
      } else {
        return None;
      }
    }
    ranges := Some(out);
  }

  type Links = map<Device, map<Port, Link>>

  predicate Stored(m: Links, d: Device, p: Port) {
    d in m && p in m[d]
  }

  function Put(m: Links, l: Link): (r: Links)
    ensures forall d, p :: Stored(r, d, p) <==> Stored(m, d, p) || (d == l.startDevice && p == l.startPort)
    ensures Stored(r, l.startDevice, l.startPort) && r[l.startDevice][l.startPort] == l
    ensures forall d, p :: Stored(m, d, p) && !(d == l.startDevice && p == l.startPort) ==>
              Stored(r, d, p) && r[d][p] == m[d][p]
    ensures r.Keys == m.Keys + {l.startDevice}
  {
    m[l.startDevice := (if l.startDevice in m then m[l.startDevice] else map[])[l.startPort := l]]
  }

  function Add(m: Links, l: Link): Links {
    Put(Put(m, l), l.Reverse())
  }

  /** The same link, seen from its other end: the two ends change places and nothing else does. */
  predicate Mirrors(a: Link, b: Link) {
    && a.startDevice == b.endDevice && a.startPort == b.endPort
    && a.endDevice == b.startDevice && a.endPort == b.startPort
    && a.bandwidth == b.bandwidth && a.vlans == b.vlans && a.vlanMode == b.vlanMode && a.autoNeg == b.autoNeg
  }

  /** The index after reading the rows in order. */
  function Load(rows: seq<Link>): Links {
    if rows == [] then map[] else Add(Load(rows[..|rows| - 1]), rows[|rows| - 1])
  }

  class DeviceLinkMap {
    var links: Links

    constructor ()
      ensures links == map[]
    {
      links := map[];
    }

    method AddLink(link: Link)
      modifies this
      ensures links == Add(old(links), link)
    {
      if link.startDevice !in links {
        links := links[link.startDevice := map[]];
      }
      links := links[link.startDevice := links[link.startDevice][link.startPort := link]];
      var reverse := link.Reverse();
      if reverse.startDevice !in links {
        links := links[reverse.startDevice := map[]];
      }
      links := links[reverse.startDevice := links[reverse.startDevice][reverse.startPort := reverse]];
    }

    /** The loop over the rows of a link file. */
    method LoadRows(rows: seq<Link>)
      requires links == map[]
      modifies this
      ensures links == Load(rows)
    {
      for i := 0 to |rows|
        invariant links == Load(rows[..i])
      {
        assert rows[..i + 1][..i] == rows[..i];
        AddLink(rows[i]);
      }
      assert rows[..|rows|] == rows;
    }
  }

  // ---- properties of the index ----

  /** Stored under its own start, and its other end stores the reverse. */
  ghost predicate TwoWay(m: Links, d: Device, p: Port)
    requires Stored(m, d, p)
  {
    var l := m[d][p];
    && l.startDevice == d && l.startPort == p
    && Stored(m, l.endDevice, l.endPort) && Mirrors(m[l.endDevice][l.endPort], l)
  }

  ghost predicate Involution(m: Links) {
    forall d, p :: Stored(m, d, p) ==> TwoWay(m, d, p)
  }

  /** No port occurs in two rows. */
  ghost predicate PortsOnce(rows: seq<Link>) {
    forall i, j, d, p :: 0 <= i < j < |rows| && rows[i].Touches(d, p) ==> !rows[j].Touches(d, p)
  }

  lemma {:induction false} StoredExactly(rows: seq<Link>, d: Device, p: Port)
    ensures Stored(Load(rows), d, p) <==> exists i :: 0 <= i < |rows| && rows[i].Touches(d, p)
  {
    if rows == [] {
    } else {
      var init, last := rows[..|rows| - 1], rows[|rows| - 1];
      StoredExactly(init, d, p);
      if i :| 0 <= i < |rows| && rows[i].Touches(d, p) {
        if i < |rows| - 1 { assert init[i].Touches(d, p); }
      }
      if i :| 0 <= i < |init| && init[i].Touches(d, p) {
        assert rows[i].Touches(d, p);
      }
      assert last.Touches(d, p) ==> Stored(Load(rows), d, p);
    }
  }

  // ---- which row a port ends up with ----

  /** A row's link as it is stored under the end (d, p): it starts there and leads to the row's other end. */
  function From(l: Link, d: Device, p: Port): Link {
    if l.endDevice == d && l.endPort == p then l.(startDevice := d, startPort := p,
                                                  endDevice := l.startDevice, endPort := l.startPort)
    else l
  }

  /** Row i touches the port, and no later row does. */
  ghost predicate LastRow(rows: seq<Link>, i: nat, d: Device, p: Port) {
    i < |rows| && rows[i].Touches(d, p) && forall k :: i < k < |rows| ==> !rows[k].Touches(d, p)
  }

  /** Adding a row changes the ports it touches and no others. */
  lemma AddedAt(m: Links, l: Link, d: Device, p: Port)
    ensures Stored(Add(m, l), d, p) <==> Stored(m, d, p) || l.Touches(d, p)
    ensures Stored(Add(m, l), d, p) ==> Add(m, l)[d][p] == if l.Touches(d, p) then From(l, d, p) else m[d][p]
  {
    var n := Put(m, l);
    assert Add(m, l) == Put(n, l.Reverse());
  }

  lemma {:induction false} LastRowStored(rows: seq<Link>, i: nat, d: Device, p: Port)
    requires LastRow(rows, i, d, p)
    ensures Stored(Load(rows), d, p) && Load(rows)[d][p] == From(rows[i], d, p)
  {
    var init, last := rows[..|rows| - 1], rows[|rows| - 1];
    AddedAt(Load(init), last, d, p);
    if i < |init| {
      assert LastRow(init, i, d, p);
      LastRowStored(init, i, d, p);
      assert !last.Touches(d, p);
    }
  }

  lemma {:induction false} LastRowExists(rows: seq<Link>, d: Device, p: Port) returns (i: nat)
    requires Stored(Load(rows), d, p)
    ensures LastRow(rows, i, d, p)
  {
    var init, last := rows[..|rows| - 1], rows[|rows| - 1];
    AddedAt(Load(init), last, d, p);
    if last.Touches(d, p) {
      i := |rows| - 1;
    } else {
      i := LastRowExists(init, d, p);
      assert forall k :: i < k < |rows| ==> k == |rows| - 1 || rows[k] == init[k];
    }
  }

  /** The same link, in either direction. */
  predicate SameLink(a: Link, b: Link) {
    a == b || Mirrors(a, b)
  }

  /** A row that decides one of its ports decides the other one too, up to rows that repeat it in either direction. */
  ghost predicate RowsAgree(rows: seq<Link>) {
    forall i: nat, j: nat, d, p ::
      LastRow(rows, i, d, p) && LastRow(rows, j, From(rows[i], d, p).endDevice, From(rows[i], d, p).endPort) ==>
        SameLink(rows[j], rows[i])
  }

  lemma BackAgain(l: Link, far: Link)
    requires far.Touches(l.endDevice, l.endPort)
    ensures Mirrors(From(far, l.endDevice, l.endPort), l) <==> SameLink(far, l)
  {
  }

  lemma TwoWayIffSame(rows: seq<Link>, i: nat, j: nat, d: Device, p: Port)
    requires LastRow(rows, i, d, p) && LastRow(rows, j, From(rows[i], d, p).endDevice, From(rows[i], d, p).endPort)
    ensures Stored(Load(rows), d, p) && (TwoWay(Load(rows), d, p) <==> SameLink(rows[j], rows[i]))
  {
    var l := From(rows[i], d, p);
    LastRowStored(rows, i, d, p);
    LastRowStored(rows, j, l.endDevice, l.endPort);
    BackAgain(l, rows[j]);
  }

  /**
   The index is an involution exactly when the rows agree: following a link and coming back finds the same
   link, with the same bandwidth and VLANs in both directions.
   */
  lemma InvolutionIffRowsAgree(rows: seq<Link>)
    ensures Involution(Load(rows)) <==> RowsAgree(rows)
  {
    if RowsAgree(rows) {
      forall d, p | Stored(Load(rows), d, p) ensures TwoWay(Load(rows), d, p) {
        var i := LastRowExists(rows, d, p);
        var l := From(rows[i], d, p);
        StoredExactly(rows, l.endDevice, l.endPort);
        assert rows[i].Touches(l.endDevice, l.endPort);
        var j := LastRowExists(rows, l.endDevice, l.endPort);
        TwoWayIffSame(rows, i, j, d, p);
      }
    }
    if Involution(Load(rows)) {
      forall i: nat, j: nat, d, p |
        LastRow(rows, i, d, p) && LastRow(rows, j, From(rows[i], d, p).endDevice, From(rows[i], d, p).endPort)
        ensures SameLink(rows[j], rows[i])
      {
        TwoWayIffSame(rows, i, j, d, p);
      }
    }
  }

  lemma OneRow(rows: seq<Link>, i: nat, j: nat, d: Device, p: Port)
    requires PortsOnce(rows) && i < |rows| && j < |rows| && rows[i].Touches(d, p) && rows[j].Touches(d, p)
    ensures i == j
  {
  }

  lemma FarTouched(l: Link, d: Device, p: Port)
    requires l.Touches(d, p)
    ensures l.Touches(From(l, d, p).endDevice, From(l, d, p).endPort)
  {
  }

  /** When every port occurs in one row only, the rows agree. */
  lemma LoadIsInvolution(rows: seq<Link>)
    requires PortsOnce(rows)
    ensures Involution(Load(rows))
  {
    assert RowsAgree(rows) by {
      forall i: nat, j: nat, d, p |
        LastRow(rows, i, d, p) && LastRow(rows, j, From(rows[i], d, p).endDevice, From(rows[i], d, p).endPort)
        ensures SameLink(rows[j], rows[i])
      {
        FarTouched(rows[i], d, p);
        OneRow(rows, i, j, From(rows[i], d, p).endDevice, From(rows[i], d, p).endPort);
      }
    }
    InvolutionIffRowsAgree(rows);
  }

  /**
   A row that takes a port away from an earlier, different one breaks it, if the earlier row is still the last
   one at its other end: that end points at a port that points elsewhere.
   */
  lemma ReusedPortBreaks(rows: seq<Link>, i: nat, j: nat, d: Device, p: Port)
    requires LastRow(rows, i, d, p)
    requires LastRow(rows, j, From(rows[i], d, p).endDevice, From(rows[i], d, p).endPort) && !SameLink(rows[j], rows[i])
    ensures !Involution(Load(rows))
  {
    InvolutionIffRowsAgree(rows);
  }

  /** Repeating a row, in either direction, reuses its ports and breaks nothing. */
  lemma RepeatedRowKeeps(a: Link, b: Link)
    requires SameLink(b, a)
    ensures Involution(Load([a, b])) && !PortsOnce([a, b])
  {
    InvolutionIffRowsAgree([a, b]);
    assert [a, b][0].Touches(a.startDevice, a.startPort) && [a, b][1].Touches(a.startDevice, a.startPort);
  }

  /** Whatever the rows, the device a stored link leads to has a link table. */
  lemma {:induction false} EndsHaveTables(rows: seq<Link>, d: Device, p: Port)
    ensures Stored(Load(rows), d, p) ==> Load(rows)[d][p].endDevice in Load(rows)
  {
    if rows == [] {
    } else {
      EndsHaveTables(rows[..|rows| - 1], d, p);
    }
  }
}
