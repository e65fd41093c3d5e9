/**
  Which addresses and ranges a scan may reach: the deployment's outer boundary and the scan's
  own policy, two keys that must both turn for an address that is not public.

  The special-purpose classification of the platform library is a parameter: any union of
  blocks.  100.64.0.0/10 (section 7 of RFC 6598) is added to it, as the source does.
 */
module NetGuard {
  import opened Basics
  import opened Cidr

  // ----- configuration ----------------------------------------------------------------------

  datatype Settings = Settings(allowPrivate: bool, allowed: seq<Net>)

  /** `authorized` matters only in the private zone. */
  datatype Policy = Policy(isPrivate: bool, authorized: seq<Net>)

  const PUBLIC_ONLY := Policy(false, [])

  /** Private, loopback, link-local, reserved and unspecified blocks; and the multicast ones. */
  datatype Classes = Classes(special: seq<Net>, multicast: seq<Net>)

  const CGNAT := Net(false, 100 * 0x100_0000 + 64 * 0x1_0000, 22)

  const METADATA := {
    Ip(false, 0xA9FE_A9FE),                                  // 169.254.169.254
    Ip(false, 0x6464_64C8),                                  // 100.100.100.200
    Ip(true, 0xFD00_0EC2_0000_0000_0000_0000_0000_0254)      // fd00:ec2::254
  }

  predicate HeldBySome(nets: seq<Net>, ip: Ip) {
    exists i | 0 <= i < |nets| :: Holds(nets[i], ip)
  }

  predicate AllAligned(nets: seq<Net>) {
    forall i | 0 <= i < |nets| :: Aligned(nets[i])
  }

  // ----- one address ------------------------------------------------------------------------

  const MAPPED := Net(true, 0xFFFF_0000_0000, 32)  // ::ffff:0:0/96

  /** An IPv4-mapped IPv6 address stands for the address it embeds. */
  function Unmapped(ip: Ip): Ip {
    if ip.v6 && MAPPED.base <= ip.value < MAPPED.base + 0x1_0000_0000
    then Ip(false, ip.value - MAPPED.base) else ip
  }

  predicate ListedAsHost(settings: Settings, ip: Ip) {
    exists i | 0 <= i < |settings.allowed| :: Size(settings.allowed[i]) == 1 && Low(settings.allowed[i]) == ip
  }

  predicate PolicyAllows(policy: Policy, ip: Ip) {
    policy.isPrivate && HeldBySome(policy.authorized, ip)
  }

  predicate Forbidden(classes: Classes, ip: Ip) {
    HeldBySome(classes.special, ip) || HeldBySome(classes.multicast, ip) || Holds(CGNAT, ip)
  }

  predicate IpAllowed(settings: Settings, policy: Policy, classes: Classes, addr: Ip) {
    var ip := Unmapped(addr);
    if ip in METADATA then settings.allowPrivate && ListedAsHost(settings, ip) && PolicyAllows(policy, ip)
    else if !Forbidden(classes, ip) then true
    else if !(settings.allowPrivate && HeldBySome(settings.allowed, ip)) then false
    else PolicyAllows(policy, ip)
  }

  // ----- two keys ---------------------------------------------------------------------------

  predicate Public(classes: Classes, ip: Ip) {
    ip !in METADATA && !Forbidden(classes, ip)
  }

  /** The deployment's key and the scan's: a metadata address must be listed as a host. */
  predicate BothKeys(settings: Settings, policy: Policy, ip: Ip) {
    && settings.allowPrivate && PolicyAllows(policy, ip)
    && (if ip in METADATA then ListedAsHost(settings, ip) else HeldBySome(settings.allowed, ip))
  }

  /** An address is reachable if and only if it is public or both keys turn. */
  lemma {:induction false} BothKeysOrPublic(settings: Settings, policy: Policy, classes: Classes, addr: Ip)
    ensures var ip := Unmapped(addr);
      IpAllowed(settings, policy, classes, addr) <==> Public(classes, ip) || BothKeys(settings, policy, ip)
    ensures !BothKeys(settings, PUBLIC_ONLY, addr)
  {
  }

  /** `::ffff:a.b.c.d` is treated exactly as a.b.c.d. */
  lemma {:induction false} MappedIsTheEmbedded(settings: Settings, policy: Policy, classes: Classes, x: nat)
    requires x < 0x1_0000_0000
    ensures IpAllowed(settings, policy, classes, Ip(true, 0xFFFF_0000_0000 + x)) <==>
            IpAllowed(settings, policy, classes, Ip(false, x))
  {
  }

  lemma {:induction false} SharedRange(ip: Ip)
    ensures Holds(CGNAT, ip) <==>
            !ip.v6 && 100 * 0x100_0000 + 64 * 0x1_0000 <= ip.value < 100 * 0x100_0000 + 128 * 0x1_0000
  {
    assert Pow2(2) == 4 && Pow2(4) == 0x10 && Pow2(6) == 0x40;
    Pow2Adds(4, 4);
    Pow2Adds(8, 8);
    Pow2Adds(16, 6);
    assert CGNAT.base == 401 * Pow2(22);
    MaskedMultiple(401, 22);
    HoldsIsInterval(CGNAT, ip);
  }

  predicate IsMetadata(ip: Ip) {
    if ip.v6 then ip.value == 0xFD00_0EC2_0000_0000_0000_0000_0000_0254
    else ip.value in {169 * 0x100_0000 + 254 * 0x1_0000 + 169 * 0x100 + 254,
                      100 * 0x100_0000 + 100 * 0x1_0000 + 100 * 0x100 + 200}
  }

  /** Of any other address the verdict is by its own classes, by the shared range from 100.64.0.0 to
      100.127.255.255 and by the metadata addresses: 169.254.169.254, 100.100.100.200 and
      fd00:ec2::254. */
  lemma {:induction false} AllowedAsWritten(settings: Settings, policy: Policy, classes: Classes, ip: Ip)
    requires ip.v6 ==> ip.value < 0xFFFF_0000_0000 || 0xFFFF_FFFF_FFFF < ip.value
    ensures IpAllowed(settings, policy, classes, ip) <==>
      var shared := !ip.v6 && 100 * 0x100_0000 + 64 * 0x1_0000 <= ip.value < 100 * 0x100_0000 + 128 * 0x1_0000;
      var authorized := settings.allowPrivate && policy.isPrivate
                        && exists i | 0 <= i < |policy.authorized| :: Holds(policy.authorized[i], ip);
      if IsMetadata(ip) then
        authorized && exists i | 0 <= i < |settings.allowed| ::
          settings.allowed[i].hostBits == 0 && settings.allowed[i].v6 == ip.v6 && settings.allowed[i].base == ip.value
      else if shared || (exists i | 0 <= i < |classes.special| :: Holds(classes.special[i], ip))
              || (exists i | 0 <= i < |classes.multicast| :: Holds(classes.multicast[i], ip)) then
        authorized && exists i | 0 <= i < |settings.allowed| :: Holds(settings.allowed[i], ip)
      else true
  {
    SharedRange(ip);
    var allowed := settings.allowed;
    assert forall i | 0 <= i < |allowed| :: Size(allowed[i]) == 1 <==> allowed[i].hostBits == 0;
  }

  // ----- a range ----------------------------------------------------------------------------

  /** The class of range that must lie inside one authorized block. */
  predicate PrivateRange(classes: Classes, net: Net) {
    var edge := Unmapped(Low(net));
    HeldBySome(classes.special, edge) || Holds(CGNAT, edge)
  }

  predicate WithinPolicy(policy: Policy, classes: Classes, net: Net) {
    PrivateRange(classes, net) ==> exists i | 0 <= i < |policy.authorized| :: SubnetOf(net, policy.authorized[i])
  }

  /** `resolve_and_validate` on a range: both edges, then the containment check. */
  predicate RangeAccepted(settings: Settings, policy: Policy, classes: Classes, net: Net) {
    && IpAllowed(settings, policy, classes, Low(net))
    && IpAllowed(settings, policy, classes, High(net))
    && WithinPolicy(policy, classes, net)
  }

  /** A range is accepted if its first and its last address are allowed and, where the first is in a
      special block or the shared range, one authorized block spans it. */
  lemma {:induction false} RangeAsWritten(settings: Settings, policy: Policy, classes: Classes, net: Net)
    ensures RangeAccepted(settings, policy, classes, net) <==>
      var last := net.base + Pow2(net.hostBits) - 1;
      var first := if net.v6 && 0xFFFF_0000_0000 <= net.base <= 0xFFFF_FFFF_FFFF
                   then Ip(false, net.base - 0xFFFF_0000_0000) else Ip(net.v6, net.base);
      var isPrivate := (exists i | 0 <= i < |classes.special| :: Holds(classes.special[i], first))
        || (!first.v6 && 100 * 0x100_0000 + 64 * 0x1_0000 <= first.value < 100 * 0x100_0000 + 128 * 0x1_0000);
      && IpAllowed(settings, policy, classes, Ip(net.v6, net.base))
      && IpAllowed(settings, policy, classes, Ip(net.v6, last))
      && (isPrivate ==> exists i | 0 <= i < |policy.authorized| ::
            && policy.authorized[i].v6 == net.v6 && policy.authorized[i].base <= net.base
            && last < policy.authorized[i].base + Pow2(policy.authorized[i].hostBits))
  {
    SharedRange(Unmapped(Low(net)));
  }

  /** `resolve_and_validate` on a host name: every resolved address must be allowed, and the
      first is the one handed to the tool; so each is public or authorized twice over. */
  method ValidateResolved(settings: Settings, policy: Policy, classes: Classes, addrs: seq<Ip>)
    returns (chosen: Option<Ip>)
    ensures chosen.Some? <==>
      addrs != [] && forall i | 0 <= i < |addrs| :: IpAllowed(settings, policy, classes, addrs[i])
    ensures chosen.Some? ==> chosen.value == addrs[0]
    ensures chosen.Some? ==> forall i | 0 <= i < |addrs| ::
      Public(classes, Unmapped(addrs[i])) || BothKeys(settings, policy, Unmapped(addrs[i]))
  {
    if addrs == [] {
      return None;
    }
    for i := 0 to |addrs|
      invariant forall j | 0 <= j < i :: IpAllowed(settings, policy, classes, addrs[j])
    {
      if !IpAllowed(settings, policy, classes, addrs[i]) {
        return None;
      }
    }
    return Some(addrs[0]);
  }

  // ----- the scan's CIDR list ---------------------------------------------------------------

  /** Parsing the site's list: a malformed entry is None and is dropped; repeats are dropped. */
  method ParseCidrs(entries: seq<Option<Net>>) returns (nets: seq<Net>)
    ensures forall n :: n in nets <==> Some(n) in entries
    ensures forall i, j | 0 <= i < j < |nets| :: nets[i] != nets[j]
  {
    nets := [];
    var seen: set<Net> := {};
    for k := 0 to |entries|
      invariant forall n :: n in nets <==> Some(n) in entries[..k]
      invariant forall n :: n in seen <==> n in nets
      invariant forall i, j | 0 <= i < j < |nets| :: nets[i] != nets[j]
    {
      assert entries[..k + 1] == entries[..k] + [entries[k]];
      if entries[k].Some? && entries[k].value !in seen {
        seen := seen + {entries[k].value};
        nets := nets + [entries[k].value];
      }
    }
    assert entries[..|entries|] == entries;
  }

  /** A malformed or repeated entry changes no authorization. */
  lemma {:induction false} SameListSameAuthority(a: seq<Net>, b: seq<Net>, ip: Ip)
    requires forall n :: n in a <==> n in b
    ensures PolicyAllows(Policy(true, a), ip) <==> PolicyAllows(Policy(true, b), ip)
  {
    if HeldBySome(a, ip) {
      var i :| 0 <= i < |a| && Holds(a[i], ip);
      assert a[i] in b;
    }
    if HeldBySome(b, ip) {
      var i :| 0 <= i < |b| && Holds(b[i], ip);
      assert b[i] in a;
    }
  }

  // ----- ranges -----------------------------------------------------------------------------

  /** An accepted range whose network address is private lies wholly inside one authorized block
      of a private-zone policy. */
  lemma {:induction false} AcceptedRangeIsAuthorized(settings: Settings, policy: Policy, classes: Classes, net: Net)
    returns (i: nat)
    requires RangeAccepted(settings, policy, classes, net) && PrivateRange(classes, net)
    requires Aligned(net) && AllAligned(policy.authorized)
    ensures policy.isPrivate && i < |policy.authorized|
    ensures forall ip | Holds(net, ip) :: Holds(policy.authorized[i], ip)
  {
    i :| 0 <= i < |policy.authorized| && SubnetOf(net, policy.authorized[i]);
    SubnetIsContainment(net, policy.authorized[i]);
  }

  predicate NoMapped(net: Net) {
    !net.v6 || net.base + Size(net) <= MAPPED.base || MAPPED.base + 0x1_0000_0000 <= net.base
  }

  predicate NoMetadata(net: Net) {
    forall ip | ip in METADATA :: !Holds(net, ip)
  }

  /** The settings' half of the two keys, for one address: a metadata address is listed as a host,
      any other that is not public is held by some allowed block. */
  predicate SettingsOpen(settings: Settings, classes: Classes, ip: Ip) {
    && (ip in METADATA ==> settings.allowPrivate && ListedAsHost(settings, ip))
    && (ip !in METADATA && Forbidden(classes, ip) ==> settings.allowPrivate && HeldBySome(settings.allowed, ip))
  }

  /** The policy's half for an IPv4-mapped address: that of the address it stands for. */
  predicate MappedIsOpen(policy: Policy, classes: Classes, ip: Ip) {
    Unmapped(ip) == ip || Public(classes, Unmapped(ip)) || PolicyAllows(policy, Unmapped(ip))
  }

  /** Accepting a range does not make all of it reachable.  Every address of an accepted private
      range may be scanned if and only if the settings alone open each of them: the policy's half
      follows from the acceptance, but for an IPv4-mapped address, which stands for another. */
  lemma {:induction false} RangeIsAllowedExactlyIfSettingsOpenIt(settings: Settings, policy: Policy, classes: Classes,
          net: Net)
    requires RangeAccepted(settings, policy, classes, net) && PrivateRange(classes, net)
    requires Aligned(net) && AllAligned(policy.authorized)
    ensures (forall ip | Holds(net, ip) :: IpAllowed(settings, policy, classes, ip)) <==>
            (forall ip | Holds(net, ip) ::
               SettingsOpen(settings, classes, Unmapped(ip)) && MappedIsOpen(policy, classes, ip))
  {
    var i := AcceptedRangeIsAuthorized(settings, policy, classes, net);
    forall ip | Holds(net, ip)
      ensures IpAllowed(settings, policy, classes, ip) <==>
              SettingsOpen(settings, classes, Unmapped(ip)) && MappedIsOpen(policy, classes, ip)
    {
      BothKeysOrPublic(settings, policy, classes, ip);
      HeldAt(policy.authorized, i, ip);
    }
  }

  /** In particular when one allowed block of the settings holds the network address and is no
      smaller, and the range holds no metadata address. */
  lemma {:induction false} AcceptedRangeIsWhollyAllowed(settings: Settings, policy: Policy, classes: Classes,
                                                        net: Net, k: nat, ip: Ip)
    requires RangeAccepted(settings, policy, classes, net) && PrivateRange(classes, net)
    requires Aligned(net) && AllAligned(policy.authorized) && AllAligned(settings.allowed)
    requires k < |settings.allowed| && net.hostBits <= settings.allowed[k].hostBits
    requires Holds(settings.allowed[k], Low(net))
    requires NoMetadata(net) && NoMapped(net) && Holds(net, ip)
    ensures IpAllowed(settings, policy, classes, ip)
  {
    BaseDecides(net, settings.allowed[k]);
    SubnetIsContainment(net, settings.allowed[k]);
    EdgesAreHeld(net);
    NetworkAddressOpensPrivate(settings, policy, classes, net);
    forall x | Holds(net, x)
      ensures SettingsOpen(settings, classes, Unmapped(x)) && MappedIsOpen(policy, classes, x)
    {
      HoldsIsInterval(net, x);
      assert Unmapped(x) == x;
      HeldAt(settings.allowed, k, x);
    }
    RangeIsAllowedExactlyIfSettingsOpenIt(settings, policy, classes, net);
  }

  /** The network address of an accepted private range is not public, so the settings allow
      private scanning. */
  lemma {:induction false} NetworkAddressOpensPrivate(settings: Settings, policy: Policy, classes: Classes, net: Net)
    requires RangeAccepted(settings, policy, classes, net) && PrivateRange(classes, net)
    ensures settings.allowPrivate
  {
  }

  lemma {:induction false} HeldAt(nets: seq<Net>, i: nat, ip: Ip)
    requires i < |nets| && Holds(nets[i], ip)
    ensures HeldBySome(nets, ip)
  {
  }

  // ----- each condition is needed -----------------------------------------------------------

  /** The block that is one address. */
  function Host(ip: Ip): Net {
    Net(ip.v6, ip.value, 0)
  }

  lemma {:induction false} WithinItself(classes: Classes, net: Net)
    ensures WithinPolicy(Policy(true, [net]), classes, net)
  {
    var policy := Policy(true, [net]);
    assert SubnetOf(net, policy.authorized[0]);
  }

  /** The two halves of an aligned range, and the edges they hold. */
  lemma {:induction false} Halves(net: Net, lower: Net, upper: Net)
    requires Aligned(net) && net.hostBits >= 1
    requires lower == Net(net.v6, net.base, net.hostBits - 1)
    requires upper == Net(net.v6, net.base + Pow2(net.hostBits - 1), net.hostBits - 1)
    ensures Holds(lower, Low(net)) && Holds(upper, High(net))
    ensures !SubnetOf(net, lower) && !SubnetOf(net, upper)
  {
    HalvesAreAligned(net.base, net.hostBits);
    EdgesAreHeld(lower);
    EdgesAreHeld(upper);
  }

  /** Two allowed blocks that hold an edge each are not enough: for every range with an address between
      its edges that is not public there are settings that allow both edges, so that the range is
      accepted, and refuse that address. */
  lemma {:induction false} EdgesInTwoBlocksAreNotEnough(classes: Classes, net: Net, middle: Ip)
    requires Aligned(net) && NoMetadata(net) && NoMapped(net)
    requires Holds(net, middle) && middle != Low(net) && middle != High(net) && Forbidden(classes, middle)
    ensures var settings := Settings(true, [Host(Low(net)), Host(High(net))]);
            var policy := Policy(true, [net]);
            RangeAccepted(settings, policy, classes, net) && !IpAllowed(settings, policy, classes, middle)
  {
    var allowed := [Host(Low(net)), Host(High(net))];
    EdgesAreHeld(net);
    HoldsIsInterval(net, middle);
    HeldAt(allowed, 0, Low(net));
    HeldAt(allowed, 1, High(net));
    HeldAt([net], 0, Low(net));
    HeldAt([net], 0, High(net));
    WithinItself(classes, net);
  }

  /** A range around a metadata address is accepted by settings and policy that name the range, and
      the metadata address itself still refused. */
  lemma {:induction false} MetadataInsideARangeIsRefused(classes: Classes, net: Net, metadata: Ip)
    requires Aligned(net) && net.hostBits >= 1 && NoMapped(net)
    requires metadata in METADATA && Holds(net, metadata)
    requires Low(net) !in METADATA && High(net) !in METADATA
    ensures var settings := Settings(true, [net]);
            var policy := Policy(true, [net]);
            && RangeAccepted(settings, policy, classes, net)
            && !IpAllowed(settings, policy, classes, metadata)
  {
    assert Size(net) == 2 * Pow2(net.hostBits - 1);
    EdgesAreHeld(net);
    HoldsIsInterval(net, metadata);
    HeldAt([net], 0, Low(net));
    HeldAt([net], 0, High(net));
    WithinItself(classes, net);
  }

  /** The containment check looks only at the class of the network address, which leaves out
      multicast: such a range is accepted when each half is authorized, although no authorized
      block holds all of it. */
  lemma {:induction false} MulticastRangeNeedNotBeContained(classes: Classes, net: Net)
    requires Aligned(net) && net.hostBits >= 1 && NoMetadata(net) && NoMapped(net)
    requires HeldBySome(classes.multicast, Low(net)) && !PrivateRange(classes, net)
    ensures var half := Pow2(net.hostBits - 1);
            var settings := Settings(true, [net]);
            var policy := Policy(true, [Net(net.v6, net.base, net.hostBits - 1),
                                        Net(net.v6, net.base + half, net.hostBits - 1)]);
            && RangeAccepted(settings, policy, classes, net)
            && forall i | 0 <= i < |policy.authorized| :: !SubnetOf(net, policy.authorized[i])
  {
    var lower := Net(net.v6, net.base, net.hostBits - 1);
    var upper := Net(net.v6, net.base + Pow2(net.hostBits - 1), net.hostBits - 1);
    Halves(net, lower, upper);
    EdgesAreHeld(net);
    HeldAt([lower, upper], 0, Low(net));
    HeldAt([lower, upper], 1, High(net));
    HeldAt([net], 0, Low(net));
    HeldAt([net], 0, High(net));
  }

  lemma {:induction false} HalvesAreAligned(base: nat, hostBits: nat)
    requires hostBits >= 1 && Masked(base, hostBits) == base
    ensures Masked(base, hostBits - 1) == base
    ensures Masked(base + Pow2(hostBits - 1), hostBits - 1) == base + Pow2(hostBits - 1)
  {
    if hostBits > 1 {
      HalvesAreAligned(base / 2, hostBits - 1);
      assert base == 2 * (base / 2);
      assert (base + Pow2(hostBits - 1)) / 2 == base / 2 + Pow2(hostBits - 2);
    }
  }
}
