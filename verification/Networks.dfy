/**
 CIDR blocks and their child subnets, as the standard `ipaddress` library enumerates them for
 ansible/library/nut_allocate_ip.py (section 3.1 of RFC 4632: a block is aligned to its size).
 */
module Networks {
  import opened Common

  /** `base` is the network address, `len` the prefix length, `width` 32 or 128. */
  datatype Network = Network(base: nat, len: nat, width: nat)
  {
    /** What `ip_network` accepts: no host bits set, and inside the address space. */
    ghost predicate Valid() {
      && len <= width
      && base % Pow2(width - len) == 0
      && base + Pow2(width - len) <= Pow2(width)
    }

    ghost predicate Contains(a: int)
      requires len <= width
    {
      base <= a < base + Pow2(width - len)
    }
  }

  ghost predicate Overlap(m: Network, n: Network)
    requires m.len <= m.width && n.len <= n.width
  {
    exists a: int :: m.Contains(a) && n.Contains(a)
  }

  /** How many values `network.subnets(new_prefix=childLen)` yields before it stops or raises. */
  function SubnetCount(n: Network, childLen: nat): nat {
    if n.len == n.width then 1
    else if childLen < n.len || childLen > n.width then 0
    else Pow2(childLen - n.len)
  }

  /** The k-th value it yields; a host route yields itself. */
  function Subnet(n: Network, childLen: nat, k: nat): Network
    requires k < SubnetCount(n, childLen)
  {
    if n.len == n.width then n
    else Network(n.base + k * Pow2(n.width - childLen), childLen, n.width)
  }

  /** The k-th of q consecutive steps from an aligned base is aligned and stays inside. */
  lemma StepInside(base: nat, k: nat, q: nat, step: nat)
    requires step > 0 && k < q && base % (q * step) == 0
    ensures (base + k * step) % step == 0
    ensures k * step + step <= q * step
  {
    var whole := q * step;
    assert whole > 0 by { MulMonotone(1, q, step); }
    calc {
      base;
      (base / whole) * (q * step);
      ((base / whole) * q) * step;
    }
    MultipleMod((base / whole) * q, step);
    MultipleMod(k, step);
    ModAdd(base, k * step, step);
    MulMonotone(k + 1, q, step);
  }

  /** Every child is a valid block inside its parent. */
  lemma SubnetInside(n: Network, childLen: nat, k: nat)
    requires n.Valid() && k < SubnetCount(n, childLen)
    ensures Subnet(n, childLen, k).Valid()
    ensures forall a: int :: Subnet(n, childLen, k).Contains(a) ==> n.Contains(a)
  {
    if n.len < n.width {
      var count, step, size := Pow2(childLen - n.len), Pow2(n.width - childLen), Pow2(n.width - n.len);
      assert size == count * step by { Pow2Adds(childLen - n.len, n.width - childLen); }
      var child, offset := Subnet(n, childLen, k), k * step;
      assert child == Network(n.base + offset, childLen, n.width);
      assert (n.base + offset) % step == 0 && offset + step <= size by { StepInside(n.base, k, count, step); }
      ChildInside(n, child, offset, step, size);
    }
  }

  lemma ChildInside(n: Network, child: Network, offset: nat, step: nat, size: nat)
    requires n.Valid() && child.len <= child.width == n.width && child.base == n.base + offset
    requires Pow2(n.width - n.len) == size && Pow2(n.width - child.len) == step
    requires child.base % step == 0 && offset + step <= size
    ensures child.Valid() && forall a: int :: child.Contains(a) ==> n.Contains(a)
  {
  }

  /** The only step that can hold an offset is its quotient. */
  lemma StepHolds(offset: int, step: nat, q: nat)
    requires step > 0 && 0 <= offset < q * step
    ensures 0 <= offset / step < q
    ensures forall j: nat :: j * step <= offset < j * step + step <==> j == offset / step
  {
    var k := offset / step;
    if k >= q { MulMonotone(q, k, step); }
    if k < 0 { MulMonotone(k, -1, step); }
    forall j: nat | j * step <= offset < j * step + step ensures j == k {
      DivModUnique(offset, step, j, offset - j * step);
    }
  }

  /** The children tile the parent: an address of the parent lies in exactly one child. */
  lemma SubnetsTile(n: Network, childLen: nat, a: int)
    requires n.Valid() && n.len <= childLen <= n.width && n.Contains(a)
    ensures var k := (a - n.base) / Pow2(n.width - childLen);
            && 0 <= k < SubnetCount(n, childLen)
            && forall j: nat :: j < SubnetCount(n, childLen) ==> (Subnet(n, childLen, j).Contains(a) <==> j == k)
  {
    Pow2Adds(childLen - n.len, n.width - childLen);
    var step := Pow2(n.width - childLen);
    StepHolds(a - n.base, step, Pow2(childLen - n.len));
    if n.len == n.width {
      assert step == 1;
    }
  }

  /**
   Two pools hand out overlapping children at some pair of positions exactly when the pools
   themselves overlap: keeping pools disjoint is both enough and necessary.
   */
  lemma PoolsCollideIffOverlap(m: Network, n: Network, childLen: nat)
    requires m.Valid() && n.Valid() && m.width == n.width
    requires m.len <= childLen <= m.width && n.len <= childLen
    ensures Overlap(m, n) <==>
            exists j: nat, k: nat :: j < SubnetCount(m, childLen) && k < SubnetCount(n, childLen)
              && Overlap(Subnet(m, childLen, j), Subnet(n, childLen, k))
  {
    if Overlap(m, n) {
      var a: int :| m.Contains(a) && n.Contains(a);
      SubnetsTile(m, childLen, a);
      SubnetsTile(n, childLen, a);
      var step := Pow2(m.width - childLen);
      var j, k := (a - m.base) / step, (a - n.base) / step;
      assert Subnet(m, childLen, j).Contains(a) && Subnet(n, childLen, k).Contains(a);
      assert Overlap(Subnet(m, childLen, j), Subnet(n, childLen, k));
    }
    if j: nat, k: nat :| j < SubnetCount(m, childLen) && k < SubnetCount(n, childLen)
                         && Overlap(Subnet(m, childLen, j), Subnet(n, childLen, k)) {
      SubnetInside(m, childLen, j);
      SubnetInside(n, childLen, k);
      var a: int :| Subnet(m, childLen, j).Contains(a) && Subnet(n, childLen, k).Contains(a);
      assert m.Contains(a) && n.Contains(a);
    }
  }

  /** One value taken from a pool's subnet iterator. */
  datatype Child = Child(pool: Network, len: nat, slot: nat)
  {
    function Block(): Network
      requires slot < SubnetCount(pool, len)
    {
      Subnet(pool, len, slot)
    }
  }

  /**
   How many links a pool can serve: children with four addresses, each link using hosts 1 and 2.
   A host route yields itself once, but has no host 1.
   */
  function P2pCapacity(n: Network): nat {
    if n.width < 2 || n.len == n.width then 0 else SubnetCount(n, n.width - 2)
  }
}
