/**
  Address blocks in the sense of section 3.1 of RFC 4632: a base address aligned to the size of
  the block, tested by masking off the host bits.
 */
module Cidr {

  /** An address: 32 bits wide, or 128 when `v6`. */
  datatype Ip = Ip(v6: bool, value: nat)

  /** A block with `hostBits` free low bits. */
  datatype Net = Net(v6: bool, base: nat, hostBits: nat)

  function Pow2(n: nat): (p: nat)
    ensures p >= 1
  {
    if n == 0 then 1 else 2 * Pow2(n - 1)
  }

  function Size(net: Net): (n: nat)
    ensures n >= 1
  {
    Pow2(net.hostBits)
  }

  /** `value` with its low `hostBits` bits cleared. */
  function Masked(value: nat, hostBits: nat): nat {
    if hostBits == 0 then value else 2 * Masked(value / 2, hostBits - 1)
  }

  /** The base has no host bits set. */
  predicate Aligned(net: Net) {
    Masked(net.base, net.hostBits) == net.base
  }

  /** `ip_network(..., strict=False)`: host bits are cleared, never refused. */
  function Block(ip: Ip, hostBits: nat): Net {
    Net(ip.v6, Masked(ip.value, hostBits), hostBits)
  }

  function Low(net: Net): Ip {
    Ip(net.v6, net.base)
  }

  function High(net: Net): Ip {
    Ip(net.v6, net.base + Size(net) - 1)
  }

  /** `ip in net`. */
  predicate Holds(net: Net, ip: Ip) {
    net.v6 == ip.v6 && Masked(ip.value, net.hostBits) == net.base
  }

  /** `a.subnet_of(b)`, which compares the edges. */
  predicate SubnetOf(a: Net, b: Net) {
    a.v6 == b.v6 && b.base <= a.base && a.base + Size(a) <= b.base + Size(b)
  }

  lemma {:induction false} Pow2Adds(m: nat, n: nat)
    ensures Pow2(m + n) == Pow2(m) * Pow2(n)
  {
    if m > 0 {
      Pow2Adds(m - 1, n);
    }
  }

  lemma {:induction false} MaskedMultiple(k: nat, hostBits: nat)
    ensures Masked(k * Pow2(hostBits), hostBits) == k * Pow2(hostBits)
  {
    if hostBits > 0 {
      assert k * Pow2(hostBits) == 2 * (k * Pow2(hostBits - 1));
      MaskedMultiple(k, hostBits - 1);
    }
  }

  lemma {:induction false} MaskedBounds(value: nat, hostBits: nat)
    ensures Masked(value, hostBits) <= value < Masked(value, hostBits) + Pow2(hostBits)
    ensures Masked(Masked(value, hostBits), hostBits) == Masked(value, hostBits)
  {
    if hostBits > 0 {
      MaskedBounds(value / 2, hostBits - 1);
    }
  }

  lemma {:induction false} MaskedUnique(base: nat, value: nat, hostBits: nat)
    requires Masked(base, hostBits) == base && base <= value < base + Pow2(hostBits)
    ensures Masked(value, hostBits) == base
  {
    if hostBits > 0 {
      MaskedUnique(base / 2, value / 2, hostBits - 1);
    }
  }

  /** Masking tests exactly the interval between the edges. */
  lemma {:induction false} HoldsIsInterval(net: Net, ip: Ip)
    requires Aligned(net)
    ensures Holds(net, ip) <==> net.v6 == ip.v6 && net.base <= ip.value < net.base + Size(net)
  {
    MaskedBounds(ip.value, net.hostBits);
    if net.base <= ip.value < net.base + Size(net) {
      MaskedUnique(net.base, ip.value, net.hostBits);
    }
  }

  lemma {:induction false} EdgesAreHeld(net: Net)
    requires Aligned(net)
    ensures Holds(net, Low(net)) && Holds(net, High(net))
  {
    HoldsIsInterval(net, Low(net));
    HoldsIsInterval(net, High(net));
  }

  /** Whatever address and prefix an entry names, the block it is read as is aligned and holds it. */
  lemma {:induction false} BlockIsAligned(ip: Ip, hostBits: nat)
    ensures Aligned(Block(ip, hostBits)) && Holds(Block(ip, hostBits), ip)
  {
    MaskedBounds(ip.value, hostBits);
  }

  /** Comparing edges decides containment of every address, both ways. */
  lemma {:induction false} SubnetIsContainment(a: Net, b: Net)
    requires Aligned(a) && Aligned(b)
    ensures SubnetOf(a, b) <==> forall ip | Holds(a, ip) :: Holds(b, ip)
  {
    if SubnetOf(a, b) {
      forall ip | Holds(a, ip)
        ensures Holds(b, ip)
      {
        HoldsIsInterval(a, ip);
        HoldsIsInterval(b, ip);
      }
    }
    if forall ip | Holds(a, ip) :: Holds(b, ip) {
      EdgesAreHeld(a);
      HoldsIsInterval(b, Low(a));
      HoldsIsInterval(b, High(a));
    }
  }

  lemma {:induction false} AlignedGap(a: nat, k: nat, b: nat, m: nat)
    requires Masked(a, k) == a && Masked(b, m) == b && k <= m && a < b + Pow2(m)
    ensures a + Pow2(k) <= b + Pow2(m)
  {
    if k > 0 {
      AlignedGap(a / 2, k - 1, b / 2, m - 1);
    }
  }

  /** Blocks nest or are disjoint: one that holds the base of a block no larger than itself
      holds the whole of it. */
  lemma {:induction false} BaseDecides(a: Net, b: Net)
    requires Aligned(a) && Aligned(b) && a.hostBits <= b.hostBits && Holds(b, Low(a))
    ensures SubnetOf(a, b)
  {
    HoldsIsInterval(b, Low(a));
    AlignedGap(a.base, a.hostBits, b.base, b.hostBits);
  }
}
