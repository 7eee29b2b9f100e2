/** The address ranges no check or scan may reach, tested on one address and on a whole
    network (ssrf.py). Addresses are the integers ipaddress keeps them as. */
module Ssrf {
  import opened Results

  datatype Version = V4 | V6

  datatype Address = Address(version: Version, value: nat)

  /** A network: its first address and the number of bits its addresses range over. */
  datatype Network = Network(version: Version, first: nat, bits: nat)

  function Pow2(n: nat): (p: nat)
    ensures p >= 1
  {
    if n == 0 then 1 else 2 * Pow2(n - 1)
  }

  const TWO_32: nat := 0x1_0000_0000
  const TWO_80: nat := 0x1_0000_0000_0000_0000_0000
  const TWO_96: nat := 0x1_0000_0000_0000_0000_0000_0000
  const TWO_112: nat := 0x1_0000_0000_0000_0000_0000_0000_0000
  const TWO_128: nat := 0x1_0000_0000_0000_0000_0000_0000_0000_0000

  function Width(version: Version): nat {
    if version == V4 then 32 else 128
  }

  function Space(version: Version): nat {
    if version == V4 then TWO_32 else TWO_128
  }

  predicate ValidAddress(a: Address) {
    a.value < Space(a.version)
  }

  function Size(n: Network): (s: nat)
    ensures s >= 1
  {
    Pow2(n.bits)
  }

  function Last(n: Network): nat {
    n.first + Size(n) - 1
  }

  /** What ipaddress guarantees of a network: no host bit is set, and it lies in its space. */
  predicate ValidNetwork(n: Network) {
    n.bits <= Width(n.version) && n.first % Size(n) == 0 && Last(n) < Space(n.version)
  }

  /** `address in network`: the same version and the same prefix. */
  predicate In(a: Address, n: Network) {
    a.version == n.version && a.value / Size(n) == n.first / Size(n)
  }

  /** The prefix test is an interval test. */
  lemma InIsInterval(a: Address, n: Network)
    requires n.first % Size(n) == 0
    ensures In(a, n) <==> a.version == n.version && n.first <= a.value <= Last(n)
  {
    var size := Size(n);
    var q := n.first / size;
    assert n.first == size * q;
    if a.value / size == q {
      assert a.value == size * q + a.value % size;
    }
    if n.first <= a.value <= Last(n) {
      QuotientOf(a.value, size, q);
    }
  }

  lemma QuotientOf(x: nat, size: nat, q: nat)
    requires size >= 1 && size * q <= x < size * q + size
    ensures x / size == q
  {
    var d := x / size;
    assert x == size * d + x % size;
    MulMonotone(size, q + 1, d);
    MulMonotone(size, d + 1, q);
  }

  lemma MulMonotone(size: nat, a: int, b: int)
    ensures a <= b ==> size * a <= size * b
  {
  }

  /** `self.overlaps(other)`: one network holds an end of the other. */
  predicate Overlaps(n: Network, m: Network) {
    || In(Address(m.version, m.first), n) || In(Address(m.version, Last(m)), n)
    || In(Address(n.version, n.first), m) || In(Address(n.version, Last(n)), m)
  }

  const IMDS := Network(V4, 0xA9FE_0000, 16)                                             // 169.254.0.0/16
  const LINK_LOCAL := Network(V6, 0xFE80 * TWO_112, 118)                                 // fe80::/10
  const AWS_V6 := Network(V6, 0xFD00_0EC2_0000_0000_0000_0000_0000_0254, 0)              // fd00:ec2::254/128
  const ALIBABA := Network(V4, 0x6464_64C8, 0)                                           // 100.100.100.200/32

  const CLOUD_METADATA: seq<Network> := [IMDS, LINK_LOCAL, AWS_V6, ALIBABA]

  const PRIVATE: seq<Network> := [
    Network(V4, 0x0A00_0000, 24),            // 10.0.0.0/8
    Network(V4, 0xAC10_0000, 20),            // 172.16.0.0/12
    Network(V4, 0xC0A8_0000, 16),            // 192.168.0.0/16
    Network(V6, 0xFC00 * TWO_112, 121),      // fc00::/7
    Network(V4, 0x7F00_0000, 24),            // 127.0.0.0/8
    Network(V6, 1, 0),                       // ::1/128
    Network(V4, 0, 24),                      // 0.0.0.0/8
    Network(V6, 0, 0),                       // ::/128
    Network(V4, 0x6440_0000, 22)]            // 100.64.0.0/10

  // ---- IPv6 addresses that carry an IPv4 one ----

  const MAPPED := Network(V6, 0xFFFF * TWO_32, 32)                // ::ffff:0:0/96
  const SIX_TO_FOUR := Network(V6, 0x2002 * TWO_112, 112)         // 2002::/16
  const NAT64 := Network(V6, 0x0064_FF9B * TWO_96, 32)            // 64:ff9b::/96

  const CARRIERS: seq<Network> := [MAPPED, SIX_TO_FOUR, NAT64]

  /** The IPv4 address an IPv6 one carries, if any. */
  function EmbeddedIpv4(a: Address): Option<nat> {
    if a.version == V4 then None
    else if a.value / TWO_32 == 0xFFFF then Some(a.value % TWO_32)
    else if a.value / TWO_112 == 0x2002 then Some(a.value / TWO_80 % TWO_32)
    else if In(a, NAT64) then Some(a.value % TWO_32)
    else None
  }

  // ---- One address ----

  function Candidates(a: Address): seq<Address> {
    match EmbeddedIpv4(a)
    case None => [a]
    case Some(v) => [a, Address(V4, v)]
  }

  predicate AnyIn(candidates: seq<Address>, n: Network) {
    exists c :: c in candidates && In(c, n)
  }

  /** The first of the networks that holds a candidate. */
  function FirstHolding(networks: seq<Network>, candidates: seq<Address>): (found: Option<Network>)
    ensures found.Some? ==> found.value in networks && AnyIn(candidates, found.value)
    ensures found.None? ==> forall n :: n in networks ==> !AnyIn(candidates, n)
  {
    if networks == [] then None
    else if AnyIn(candidates, networks[0]) then Some(networks[0])
    else FirstHolding(networks[1..], candidates)
  }

  datatype Label = CloudMetadata | PrivateNetwork

  /** The blocked range an address falls in, or None when it is allowed. */
  function BlockedRange(a: Address, blockMetadata: bool, blockPrivate: bool): Option<(Network, Label)> {
    var metadata := if blockMetadata then FirstHolding(CLOUD_METADATA, Candidates(a)) else None;
    var private := if blockPrivate then FirstHolding(PRIVATE, Candidates(a)) else None;
    if metadata.Some? then Some((metadata.value, CloudMetadata))
    else if private.Some? then Some((private.value, PrivateNetwork))
    else None
  }

  predicate ReachesMetadata(a: Address) {
    BlockedRange(a, true, false).Some?
  }

  // ---- A whole network ----

  function DirectOverlap(n: Network, blocked: seq<Network>): Option<Network> {
    if blocked == [] then None
    else if n.version == blocked[0].version && Overlaps(n, blocked[0]) then Some(blocked[0])
    else DirectOverlap(n, blocked[1..])
  }

  /** The first blocked IPv4 range that meets the interval. */
  function IntervalOverlap(low: nat, high: nat, blocked: seq<Network>): Option<Network> {
    if blocked == [] then None
    else if blocked[0].version == V4 && low <= Last(blocked[0]) && high >= blocked[0].first then Some(blocked[0])
    else IntervalOverlap(low, high, blocked[1..])
  }

  /** The part of the network a carrier holds, read from its first and last address. */
  function CarriedOverlap(n: Network, carrier: Network): Option<Network> {
    if !Overlaps(n, carrier) then None
    else
      var low := EmbeddedIpv4(Address(V6, Max(n.first, carrier.first)));
      var high := EmbeddedIpv4(Address(V6, Min(Last(n), Last(carrier))));
      if low.None? || high.None? then None else IntervalOverlap(low.value, high.value, CLOUD_METADATA)
  }

  function FirstCarried(n: Network, carriers: seq<Network>): Option<Network> {
    if carriers == [] then None
    else if CarriedOverlap(n, carriers[0]).Some? then CarriedOverlap(n, carriers[0])
    else FirstCarried(n, carriers[1..])
  }

  /** The cloud-metadata range the network reaches, or None. */
  function NetworkOverlap(n: Network): Option<Network> {
    var direct := DirectOverlap(n, CLOUD_METADATA);
    if direct.Some? then direct
    else if n.version == V4 then None
    else FirstCarried(n, CARRIERS)
  }

  lemma SmallSizes()
    ensures Pow2(0) == 1 && Pow2(6) == 64 && Pow2(8) == 256 && Pow2(16) == 0x1_0000
  {
    PowAdd(8, 8);
  }

  lemma Size32() ensures Pow2(32) == TWO_32 { SmallSizes(); PowAdd(16, 16); }

  lemma Size112()
    ensures Pow2(112) == TWO_112
  {
    SmallSizes();
    Size32();
    PowAdd(32, 32);
    PowAdd(64, 32);
    PowAdd(96, 16);
  }

  lemma Size118() ensures Pow2(118) == 64 * TWO_112 { SmallSizes(); Size112(); PowAdd(112, 6); }

  lemma {:induction false} PowAdd(m: nat, n: nat)
    ensures Pow2(m + n) == Pow2(m) * Pow2(n)
  {
    if m > 0 {
      PowAdd(m - 1, n);
    }
  }

  /** The ends of the fixed networks. */
  lemma Ends()
    ensures IMDS.first % Size(IMDS) == 0 && Last(IMDS) == 0xA9FE_FFFF
    ensures ALIBABA.first % Size(ALIBABA) == 0 && Last(ALIBABA) == ALIBABA.first
    ensures AWS_V6.first % Size(AWS_V6) == 0 && Last(AWS_V6) == AWS_V6.first
    ensures LINK_LOCAL.first % Size(LINK_LOCAL) == 0 && Last(LINK_LOCAL) == 0xFEC0 * TWO_112 - 1
  {
    SmallSizes();
    Size118();
  }

  lemma CarrierEnds()
    ensures MAPPED.first % Size(MAPPED) == 0 && Last(MAPPED) == 0x1_0000 * TWO_32 - 1
    ensures SIX_TO_FOUR.first % Size(SIX_TO_FOUR) == 0 && Last(SIX_TO_FOUR) == 0x2003 * TWO_112 - 1
    ensures NAT64.first % Size(NAT64) == 0 && Last(NAT64) == 0x0064_FF9B * TWO_96 + TWO_32 - 1
  {
    Size32();
    Size112();
  }

  lemma CloudMetadataValid()
    ensures forall n :: n in CLOUD_METADATA ==> n.first % Size(n) == 0
  {
    Ends();
  }

  // ---- What a carrier's addresses carry ----

  /** The IPv4 address at this distance from the carrier's first address. */
  function Carries(carrier: Network, value: nat): nat
    requires carrier in CARRIERS && carrier.first <= value
  {
    if carrier == SIX_TO_FOUR then (value - carrier.first) / TWO_80 else value - carrier.first
  }

  lemma MappedCarries(value: nat)
    requires MAPPED.first <= value <= Last(MAPPED)
    ensures EmbeddedIpv4(Address(V6, value)) == Some(value - MAPPED.first)
  {
    CarrierEnds();
    assert value / TWO_32 == 0xFFFF;
  }

  lemma SixToFourCarries(value: nat)
    requires SIX_TO_FOUR.first <= value <= Last(SIX_TO_FOUR)
    ensures EmbeddedIpv4(Address(V6, value)) == Some((value - SIX_TO_FOUR.first) / TWO_80)
  {
    CarrierEnds();
    assert value / TWO_32 != 0xFFFF;
    assert value / TWO_112 == 0x2002;
    assert value / TWO_80 == 0x2002 * TWO_32 + (value - SIX_TO_FOUR.first) / TWO_80;
  }

  lemma Nat64Carries(value: nat)
    requires NAT64.first <= value <= Last(NAT64)
    ensures EmbeddedIpv4(Address(V6, value)) == Some(value - NAT64.first)
  {
    CarrierEnds();
    InIsInterval(Address(V6, value), NAT64);
    assert value / TWO_32 != 0xFFFF;
    assert value / TWO_112 != 0x2002;
  }

  lemma CarrierCarries(carrier: Network, value: nat)
    requires carrier in CARRIERS && carrier.first <= value <= Last(carrier)
    ensures EmbeddedIpv4(Address(V6, value)) == Some(Carries(carrier, value))
  {
    if carrier == MAPPED { MappedCarries(value); }
    else if carrier == SIX_TO_FOUR { SixToFourCarries(value); }
    else { Nat64Carries(value); }
  }

  /** Only an address of a carrier carries an IPv4 address. */
  lemma OnlyCarriersCarry(a: Address)
    requires EmbeddedIpv4(a).Some?
    ensures exists carrier :: carrier in CARRIERS && carrier.first <= a.value <= Last(carrier) && a.version == V6
  {
    CarrierEnds();
    if a.value / TWO_32 == 0xFFFF { assert MAPPED.first <= a.value <= Last(MAPPED) && MAPPED in CARRIERS; }
    else if a.value / TWO_112 == 0x2002 {
      assert SIX_TO_FOUR.first <= a.value <= Last(SIX_TO_FOUR) && SIX_TO_FOUR in CARRIERS;
    }
    else { InIsInterval(a, NAT64); assert NAT64 in CARRIERS; }
  }

  lemma CarriesMonotone(carrier: Network, x: nat, y: nat)
    requires carrier in CARRIERS && carrier.first <= x <= y
    ensures Carries(carrier, x) <= Carries(carrier, y)
  {
  }

  /** An interval of a carrier carries every IPv4 address between those its ends carry. */
  lemma Carrying(carrier: Network, first: nat, last: nat, v: nat) returns (x: nat)
    requires carrier in CARRIERS && carrier.first <= first <= last
    requires Carries(carrier, first) <= v <= Carries(carrier, last)
    ensures first <= x <= last && Carries(carrier, x) == v
  {
    if carrier == SIX_TO_FOUR {
      x := if v == Carries(carrier, first) then first else carrier.first + v * TWO_80;
    } else {
      x := carrier.first + v;
    }
  }

  // ---- The two tests agree ----

  lemma MetadataMeans(a: Address)
    ensures ReachesMetadata(a) <==> exists n :: n in CLOUD_METADATA && AnyIn(Candidates(a), n)
  {
  }

  lemma OverlapsMeansShared(n: Network, m: Network)
    requires n.version == m.version && n.first % Size(n) == 0 && m.first % Size(m) == 0
    ensures Overlaps(n, m) <==> n.first <= Last(m) && m.first <= Last(n)
  {
    InIsInterval(Address(m.version, m.first), n);
    InIsInterval(Address(m.version, Last(m)), n);
    InIsInterval(Address(n.version, n.first), m);
    InIsInterval(Address(n.version, Last(n)), m);
  }

  lemma {:induction false} DirectMeans(n: Network, blocked: seq<Network>)
    ensures DirectOverlap(n, blocked).Some? <==> exists m :: m in blocked && m.version == n.version && Overlaps(n, m)
    ensures DirectOverlap(n, blocked).Some? ==>
              var m := DirectOverlap(n, blocked).value; m in blocked && m.version == n.version && Overlaps(n, m)
  {
    if blocked != [] {
      assert blocked == [blocked[0]] + blocked[1..];
      DirectMeans(n, blocked[1..]);
    }
  }

  lemma {:induction false} IntervalMeans(low: nat, high: nat, blocked: seq<Network>)
    ensures IntervalOverlap(low, high, blocked).Some?
       <==> exists m :: m in blocked && m.version == V4 && low <= Last(m) && high >= m.first
    ensures IntervalOverlap(low, high, blocked).Some? ==>
              var m := IntervalOverlap(low, high, blocked).value;
                  m in blocked && m.version == V4 && low <= Last(m) && high >= m.first
  {
    if blocked != [] {
      assert blocked == [blocked[0]] + blocked[1..];
      IntervalMeans(low, high, blocked[1..]);
    }
  }

  lemma {:induction false} FirstCarriedMeans(n: Network, carriers: seq<Network>)
    ensures FirstCarried(n, carriers).Some? <==> exists c :: c in carriers && CarriedOverlap(n, c).Some?
    ensures FirstCarried(n, carriers).Some?
        ==> exists c :: c in carriers && CarriedOverlap(n, c) == FirstCarried(n, carriers)
  {
    if carriers != [] {
      assert carriers == [carriers[0]] + carriers[1..];
      FirstCarriedMeans(n, carriers[1..]);
    }
  }

  /** The shared part of a network and a carrier, and what its ends carry. */
  lemma SharedPart(n: Network, carrier: Network)
    requires ValidNetwork(n) && n.version == V6 && carrier in CARRIERS && Overlaps(n, carrier)
    ensures var first, last := Max(n.first, carrier.first), Min(Last(n), Last(carrier));
            && first <= last
            && EmbeddedIpv4(Address(V6, first)) == Some(Carries(carrier, first))
            && EmbeddedIpv4(Address(V6, last)) == Some(Carries(carrier, last))
  {
    CarrierEnds();
    OverlapsMeansShared(n, carrier);
    CarrierCarries(carrier, Max(n.first, carrier.first));
    CarrierCarries(carrier, Min(Last(n), Last(carrier)));
  }

  /** A network whose carrier part is refused holds an address that is. */
  lemma CarriedIsReached(n: Network, carrier: Network) returns (a: Address)
    requires ValidNetwork(n) && n.version == V6 && carrier in CARRIERS && CarriedOverlap(n, carrier).Some?
    ensures In(a, n) && a.value < TWO_128 && AnyIn(Candidates(a), CarriedOverlap(n, carrier).value)
    ensures CarriedOverlap(n, carrier).value in CLOUD_METADATA
  {
    var first, last := Max(n.first, carrier.first), Min(Last(n), Last(carrier));
    SharedPart(n, carrier);
    IntervalMeans(Carries(carrier, first), Carries(carrier, last), CLOUD_METADATA);
    var m := CarriedOverlap(n, carrier).value;
    CarriesMonotone(carrier, first, last);
    var v := Max(Carries(carrier, first), m.first);
    var x := Carrying(carrier, first, last, v);
    a := Address(V6, x);
    CarrierCarries(carrier, x);
    CloudMetadataValid();
    InIsInterval(Address(V4, v), m);
    InIsInterval(a, n);
    assert Candidates(a)[1] == Address(V4, v);
  }

  lemma DirectIsReached(n: Network, m: Network) returns (a: Address)
    requires ValidNetwork(n) && m in CLOUD_METADATA && m.version == n.version && Overlaps(n, m)
    ensures In(a, n) && ValidAddress(a) && AnyIn(Candidates(a), m)
  {
    CloudMetadataValid();
    OverlapsMeansShared(n, m);
    a := Address(n.version, Max(n.first, m.first));
    InIsInterval(a, n);
    InIsInterval(a, m);
    assert Candidates(a)[0] == a;
  }

  /** A refused network reaches the range it is refused for. */
  lemma RefusedIsReached(n: Network) returns (a: Address)
    requires ValidNetwork(n) && NetworkOverlap(n).Some?
    ensures In(a, n) && ValidAddress(a)
    ensures NetworkOverlap(n).value in CLOUD_METADATA && AnyIn(Candidates(a), NetworkOverlap(n).value)
  {
    DirectMeans(n, CLOUD_METADATA);
    var direct := DirectOverlap(n, CLOUD_METADATA);
    if direct.Some? {
      a := DirectIsReached(n, direct.value);
    } else {
      FirstCarriedMeans(n, CARRIERS);
      var c :| c in CARRIERS && CarriedOverlap(n, c) == FirstCarried(n, CARRIERS);
      a := CarriedIsReached(n, c);
    }
  }

  /** An address that reaches a blocked range has its whole network refused. */
  lemma ReachedIsRefused(n: Network, a: Address)
    requires ValidNetwork(n) && In(a, n) && ReachesMetadata(a)
    ensures NetworkOverlap(n).Some?
  {
    MetadataMeans(a);
    var m :| m in CLOUD_METADATA && AnyIn(Candidates(a), m);
    var c :| c in Candidates(a) && In(c, m);
    CloudMetadataValid();
    InIsInterval(a, n);
    InIsInterval(c, m);
    if c == a {
      OverlapsMeansShared(n, m);
      DirectMeans(n, CLOUD_METADATA);
    } else {
      OnlyCarriersCarry(a);
      var carrier :| carrier in CARRIERS && carrier.first <= a.value <= Last(carrier);
      CarriedIsRefused(n, a, carrier, m);
    }
  }

  lemma CarriedIsRefused(n: Network, a: Address, carrier: Network, m: Network)
    requires ValidNetwork(n) && n.version == V6 && a.version == V6 && n.first <= a.value <= Last(n)
    requires carrier in CARRIERS && carrier.first <= a.value <= Last(carrier)
    requires m in CLOUD_METADATA && m.version == V4 && m.first <= EmbeddedIpv4Of(a) <= Last(m)
    ensures NetworkOverlap(n).Some?
  {
    CarrierEnds();
    OverlapsMeansShared(n, carrier);
    SharedPart(n, carrier);
    CarrierCarries(carrier, a.value);
    var first, last := Max(n.first, carrier.first), Min(Last(n), Last(carrier));
    CarriesMonotone(carrier, first, a.value);
    CarriesMonotone(carrier, a.value, last);
    IntervalMeans(Carries(carrier, first), Carries(carrier, last), CLOUD_METADATA);
    FirstCarriedMeans(n, CARRIERS);
  }

  function EmbeddedIpv4Of(a: Address): nat {
    EmbeddedIpv4(a).GetOr(0)
  }

  /** The test of a whole network refuses it exactly when the test of one address refuses
      one of its addresses. */
  lemma NetworkTestIsExact(n: Network)
    requires ValidNetwork(n)
    ensures NetworkOverlap(n).Some? <==> exists a :: In(a, n) && ValidAddress(a) && ReachesMetadata(a)
  {
    if NetworkOverlap(n).Some? {
      var a := RefusedIsReached(n);
      MetadataMeans(a);
    }
    if a :| In(a, n) && ValidAddress(a) && ReachesMetadata(a) {
      ReachedIsRefused(n, a);
    }
  }

  // ---- The addresses of a host ----

  /** What a host's addresses come to: those to connect to, or the range that blocks the host. */
  datatype Verdict = Allowed(addresses: seq<Address>) | Blocked(range: (Network, Label))

  /** The addresses no enabled range blocks, in the resolver's order. */
  function Permitted(addresses: seq<Address>, blockMetadata: bool, blockPrivate: bool): seq<Address> {
    if addresses == [] then []
    else
      (if BlockedRange(addresses[0], blockMetadata, blockPrivate).None? then [addresses[0]] else [])
      + Permitted(addresses[1..], blockMetadata, blockPrivate)
  }

  function AllowedAddresses(addresses: seq<Address>, blockMetadata: bool, blockPrivate: bool): Verdict {
    var allowed := Permitted(addresses, blockMetadata, blockPrivate);
    if addresses != [] && allowed == [] && BlockedRange(addresses[0], blockMetadata, blockPrivate).Some?
    then Blocked(BlockedRange(addresses[0], blockMetadata, blockPrivate).value)
    else Allowed(allowed)
  }

  lemma {:induction false} PermittedMeans(addresses: seq<Address>, blockMetadata: bool, blockPrivate: bool, a: Address)
    ensures a in Permitted(addresses, blockMetadata, blockPrivate) <==>
              a in addresses && BlockedRange(a, blockMetadata, blockPrivate).None?
  {
    if addresses != [] {
      PermittedMeans(addresses[1..], blockMetadata, blockPrivate, a);
      assert a in addresses <==> a == addresses[0] || a in addresses[1..];
    }
  }

  /** A host is refused exactly when it resolves and every address of it is blocked; otherwise
      an address is connected to exactly when it is one of the host's that no range blocks. */
  lemma RefusedExactlyWhenNoneIsAllowed(addresses: seq<Address>, blockMetadata: bool, blockPrivate: bool)
    ensures var v := AllowedAddresses(addresses, blockMetadata, blockPrivate);
            && (v.Blocked? <==>
                  addresses != []
                  && forall a :: a in addresses ==> BlockedRange(a, blockMetadata, blockPrivate).Some?)
            && (v.Allowed? ==>
                  forall a :: a in v.addresses <==>
                    a in addresses && BlockedRange(a, blockMetadata, blockPrivate).None?)
  {
    forall a
      ensures a in Permitted(addresses, blockMetadata, blockPrivate) <==>
                a in addresses && BlockedRange(a, blockMetadata, blockPrivate).None?
    {
      PermittedMeans(addresses, blockMetadata, blockPrivate, a);
    }
    if addresses != [] && Permitted(addresses, blockMetadata, blockPrivate) != [] {
      var a := Permitted(addresses, blockMetadata, blockPrivate)[0];
      assert a in addresses && BlockedRange(a, blockMetadata, blockPrivate).None?;
    } else if addresses != [] {
      assert addresses[0] in addresses;
    }
  }
}
