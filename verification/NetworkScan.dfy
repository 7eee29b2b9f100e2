/** Which addresses a network scan probes (network_scan.py). */
module NetworkScan {
  import opened Results
  import opened Ssrf

  const MAX_ADDRESSES: nat := 65536

  /** `validate_subnet`: small enough, and out of reach of the cloud-metadata ranges. */
  predicate Accepted(n: Network) {
    Size(n) <= MAX_ADDRESSES && NetworkOverlap(n).None?
  }

  function Prefix(n: Network): int {
    Width(n.version) - n.bits
  }

  /** Whether the scan goes /24 by /24. */
  predicate Chunked(n: Network) {
    Prefix(n) < 24 && Size(n) > 256
  }

  /** `network.hosts()`: IPv4 leaves out both ends and IPv6 the first address, but a
      network of one or two addresses is all hosts. */
  predicate IsHost(n: Network, value: nat) {
    && n.first <= value <= Last(n)
    && (n.bits <= 1 || (value != n.first && (n.version == V6 || value != Last(n))))
  }

  predicate Increasing(s: seq<nat>) {
    forall i, j :: 0 <= i < j < |s| ==> s[i] < s[j]
  }

  /** The addresses from the first bound up to the second, that one left out. */
  method Span(from: nat, to: nat) returns (s: seq<nat>)
    ensures Increasing(s)
    ensures forall x: nat :: x in s <==> from <= x < to
    ensures from <= to ==> |s| == to - from
  {
    s := [];
    var x := from;
    while x < to
      invariant from <= x && (from <= to ==> x <= to) && (x > from ==> x <= to)
      invariant |s| == x - from
      invariant forall i :: 0 <= i < |s| ==> s[i] == from + i
    {
      s := s + [x];
      x := x + 1;
    }
    forall y | from <= y < to ensures y in s {
      assert s[y - from] == y;
    }
  }

  method Hosts(n: Network) returns (hosts: seq<nat>)
    ensures Increasing(hosts)
    ensures forall x: nat :: x in hosts <==> IsHost(n, x)
    ensures |hosts| == if n.bits <= 1 then Size(n) else if n.version == V4 then Size(n) - 2 else Size(n) - 1
  {
    if n.bits >= 2 { AtLeastFour(n.bits); }
    if n.bits <= 1 {
      hosts := Span(n.first, Last(n) + 1);
    } else if n.version == V4 {
      hosts := Span(n.first + 1, Last(n));
    } else {
      hosts := Span(n.first + 1, Last(n) + 1);
    }
  }

  lemma AtLeastFour(bits: nat)
    requires bits >= 2
    ensures Pow2(bits) >= 4
  {
  }

  /** The k-th /24 of an IPv4 network. */
  function Chunk(n: Network, k: nat): Network {
    Network(V4, n.first + 256 * k, 8)
  }

  function ChunkCount(n: Network): nat {
    Size(n) / 256
  }

  lemma {:induction false} Pow2Monotone(m: nat, n: nat)
    ensures m <= n ==> Pow2(m) <= Pow2(n)
    decreases n
  {
    if m < n {
      Pow2Monotone(m, n - 1);
    }
  }

  /** Only an IPv4 network is scanned in chunks, and its /24s tile it. */
  lemma ChunksTile(n: Network)
    requires ValidNetwork(n) && Accepted(n) && Chunked(n)
    ensures n.version == V4 && Size(n) == 256 * ChunkCount(n) && n.first % 256 == 0 && ChunkCount(n) >= 2
    ensures Pow2(8) == 256
  {
    SmallSizes();
    PowAdd(16, 1);
    Pow2Monotone(17, n.bits);
    Pow2Monotone(n.bits, 8);
    assert 8 < n.bits < 17;
    PowAdd(n.bits - 8, 8);
    MultipleOf(n.first, Size(n), ChunkCount(n));
  }

  lemma MultipleOf(x: nat, size: nat, count: nat)
    requires size == 256 * count && size >= 1 && x % size == 0
    ensures x % 256 == 0
  {
    var q := x / size;
    assert x == size * q + x % size;
    assert size * q == 256 * (count * q);
  }

  /** Neither the first nor the last address of its /24. */
  predicate InsideItsChunk(value: nat) {
    value % 256 != 0 && value % 256 != 255
  }

  lemma ChunkHosts(n: Network, k: nat, x: nat)
    requires n.first % 256 == 0 && Pow2(8) == 256
    ensures IsHost(Chunk(n, k), x) <==> n.first + 256 * k <= x < n.first + 256 * (k + 1) && InsideItsChunk(x)
  {
    var first := n.first + 256 * k;
    assert first % 256 == 0;
    if first <= x < first + 256 {
      assert x % 256 == x - first by { QuotientOf(x, 256, first / 256); }
    }
  }

  method ScanChunk(n: Network, k: nat) returns (hosts: seq<nat>)
    requires n.first % 256 == 0 && Pow2(8) == 256
    ensures Increasing(hosts) && |hosts| == 254
    ensures forall x: nat :: x in hosts <==> n.first + 256 * k <= x < n.first + 256 * (k + 1) && InsideItsChunk(x)
  {
    hosts := Hosts(Chunk(n, k));
    forall x: nat ensures x in hosts <==> n.first + 256 * k <= x < n.first + 256 * (k + 1) && InsideItsChunk(x) {
      ChunkHosts(n, k, x);
    }
  }

  /** The chunked scan: the hosts of every /24, one after another. */
  method ScanChunked(n: Network) returns (hosts: seq<nat>)
    requires ValidNetwork(n) && Accepted(n) && Chunked(n)
    ensures Increasing(hosts)
    ensures forall x: nat :: x in hosts <==> n.first <= x <= Last(n) && InsideItsChunk(x)
    ensures |hosts| == 254 * ChunkCount(n)
  {
    ChunksTile(n);
    hosts := [];
    var k: nat := 0;
    while k < ChunkCount(n)
      invariant k <= ChunkCount(n)
      invariant Increasing(hosts)
      invariant forall x: nat :: x in hosts <==> n.first <= x < n.first + 256 * k && InsideItsChunk(x)
      invariant |hosts| == 254 * k
    {
      var chunk := ScanChunk(n, k);
      Joined(hosts, chunk, n.first + 256 * k);
      hosts := hosts + chunk;
      k := k + 1;
    }
  }

  lemma Joined(a: seq<nat>, b: seq<nat>, mid: nat)
    requires Increasing(a) && Increasing(b)
    requires forall x: nat :: x in a ==> x < mid
    requires forall x: nat :: x in b ==> x >= mid
    ensures Increasing(a + b)
  {
    forall i, j | 0 <= i < j < |a + b| ensures (a + b)[i] < (a + b)[j] {
      if i < |a| { assert a[i] in a; }
      if j >= |a| { assert b[j - |a|] in b; }
    }
  }

  /** The addresses a scan of an accepted network is for: a large network's are inside its
      /24s, a small one's are its hosts. */
  predicate IsTarget(n: Network, value: nat) {
    if Chunked(n) then n.first <= value <= Last(n) && InsideItsChunk(value) else IsHost(n, value)
  }

  /** A scan reaches nothing outside its network and no cloud-metadata range. */
  lemma TargetsAreSafe(n: Network, value: nat)
    requires ValidNetwork(n) && Accepted(n) && IsTarget(n, value)
    ensures In(Address(n.version, value), n) && !ReachesMetadata(Address(n.version, value))
  {
    InIsInterval(Address(n.version, value), n);
    NetworkTestIsExact(n);
    assert ValidAddress(Address(n.version, value));
  }

  /** A scan: None when the subnet is refused, else each of its targets, once. */
  method Execute(n: Network) returns (probed: Option<seq<nat>>)
    requires ValidNetwork(n)
    ensures probed.Some? <==> Accepted(n)
    ensures probed.Some? ==> Increasing(probed.value) && |probed.value| == Probed(n)
    ensures probed.Some? ==> forall x: nat :: x in probed.value <==> IsTarget(n, x)
  {
    if !Accepted(n) { return None; }
    var hosts;
    if Chunked(n) {
      hosts := ScanChunked(n);
    } else {
      hosts := Hosts(n);
    }
    return Some(hosts);
  }

  /** The number of hosts a scan reports it scanned. */
  function Reported(n: Network): int {
    if Chunked(n) then Size(n) - 2 else if n.bits <= 1 then Size(n) else if n.version == V4 then Size(n) - 2
        else Size(n) - 1
  }

  /** How many addresses it probes. */
  function Probed(n: Network): int {
    if Chunked(n) then 254 * ChunkCount(n)
    else if n.bits <= 1 then Size(n) else if n.version == V4 then Size(n) - 2 else Size(n) - 1
  }

  /** The reported number is the number of addresses probed exactly when the scan was not
      chunked: each /24 after the first makes it two too many. */
  lemma ReportedIsProbed(n: Network)
    requires ValidNetwork(n) && Accepted(n)
    ensures Reported(n) == Probed(n) <==> !Chunked(n)
    ensures Chunked(n) ==> Reported(n) == Probed(n) + 2 * (ChunkCount(n) - 1)
  {
    if Chunked(n) { ChunksTile(n); }
  }

  /** 10.0.0.0/16. */
  const TEN := Network(V4, 0x0A00_0000, 16)

  lemma TenEnds()
    ensures Size(TEN) == 65536 && Last(TEN) == 0x0A00_FFFF && ValidNetwork(TEN)
  {
    SmallSizes();
  }

  lemma TenReachesNothing(a: Address)
    requires ValidAddress(a) && In(a, TEN)
    ensures !ReachesMetadata(a)
  {
    TenEnds();
    InIsInterval(a, TEN);
    if ReachesMetadata(a) {
      MetadataMeans(a);
      CloudMetadataValid();
      var m :| m in CLOUD_METADATA && AnyIn(Candidates(a), m);
      InIsInterval(a, m);
      Ends();
    }
  }

  /** Such scans are made: 10.0.0.0/16 is accepted, and the number reported of it is 510 more
      than the number probed. */
  lemma TenIsScannedInChunks()
    ensures ValidNetwork(TEN) && Accepted(TEN) && Chunked(TEN) && Reported(TEN) == Probed(TEN) + 510
  {
    TenEnds();
    NetworkTestIsExact(TEN);
    if NetworkOverlap(TEN).Some? {
      var a :| In(a, TEN) && ValidAddress(a) && ReachesMetadata(a);
      TenReachesNothing(a);
    }
    ReportedIsProbed(TEN);
  }
}
