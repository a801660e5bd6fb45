/** Picking the next free tunnel address of a pool. */
module Ipam {
  import opened ByteStrings
  import opened Lists
  import opened Network

  // ---------------------------------------------------------------- addresses as bytes

  /** ::ffff:0:0/96, the IPv6 form of IPv4 addresses. */
  const MAPPED_START: nat := 0xFFFF_0000_0000
  const MAPPED_END: nat := 0x1_0000_0000_0000
  const MAPPED_PREFIX: seq<byte> := [0, 0, 0, 0, 0, 0, 0, 0, 0, 0, 255, 255]

  ghost predicate IsIP(ip: seq<byte>) {
    |ip| == 4 || |ip| == 16
  }

  /** The four bytes of an IPv4 address in either form. */
  function To4(ip: seq<byte>): (r: Option<seq<byte>>)
    ensures r.Some? ==> |r.value| == 4
  {
    if |ip| == 4 then Some(ip)
    else if |ip| == 16 && ip[..12] == MAPPED_PREFIX then Some(ip[12..])
    else None
  }

  function Normal(ip: seq<byte>): seq<byte> {
    if To4(ip).Some? then To4(ip).value else ip
  }

  /** The address a byte form stands for: equal texts mean equal addresses. */
  function AddressOf(ip: seq<byte>): Address {
    var n := Normal(ip);
    Address(if |n| == 4 then V4 else V6, BigEndian(n))
  }

  lemma {:induction false} ZerosAreZero(b: seq<byte>)
    requires forall i :: 0 <= i < |b| ==> b[i] == 0
    ensures BigEndian(b) == 0
  {
    if b != [] {
      ZerosAreZero(b[..|b| - 1]);
    }
  }

  /** The tail of a byte string from one byte on. */
  lemma SplitTail(b: seq<byte>, i: nat)
    requires i < |b|
    ensures BigEndian(b[i..]) == b[i] as nat * Power(|b| - i - 1) + BigEndian(b[i + 1..])
  {
    assert b[i..] == [b[i]] + b[i + 1..];
    ValueOfJoined([b[i]], b[i + 1..]);
    assert [b[i]][..0] == [];
    assert BigEndian([b[i]]) == b[i] as nat;
  }

  /** A byte string split at one byte: what it amounts to up to there. */
  function HighPart(b: seq<byte>, i: nat): nat
    requires i < |b|
  {
    BigEndian(b[..i]) * 256 + b[i] as nat
  }

  lemma SplitAt(b: seq<byte>, i: nat)
    requires i < |b|
    ensures BigEndian(b) == HighPart(b, i) * Power(|b| - i - 1) + BigEndian(b[i + 1..])
  {
    assert b == b[..i + 1] + b[i + 1..] && b[..i + 1] == b[..i] + [b[i]];
    ValueOfJoined(b[..i + 1], b[i + 1..]);
    assert b[..i + 1][..i] == b[..i];
  }

  /** Adding one past a run of ones: the carry ends in a byte that can take it. */
  lemma CarryStops(b: seq<byte>, next: seq<byte>, i: nat)
    requires i < |b| == |next| && next[..i] == b[..i] && next[i] as int == b[i] as int + 1
    requires forall j :: i < j < |b| ==> next[j] == 0
    requires BigEndian(b[i + 1..]) + 1 == Power(|b| - i - 1)
    ensures BigEndian(next) == BigEndian(b) + 1
  {
    hide BigEndian;
    hide Power;
    assert HighPart(next, i) == HighPart(b, i) + 1;
    hide HighPart;
    SplitAt(b, i);
    SplitAt(next, i);
    ZerosAreZero(next[i + 1..]);
    OneMore(BigEndian(b), HighPart(b, i), BigEndian(b[i + 1..]), BigEndian(next), HighPart(next, i),
        Power(|b| - i - 1));
  }

  lemma OneMore(value: nat, high: nat, low: nat, value': nat, high': nat, p: nat)
    requires value == high * p + low && value' == high' * p && high' == high + 1 && low + 1 == p
    ensures value' == value + 1
  {
    assert (high + 1) * p == high * p + p;
  }

  lemma OnesGoOn(b: seq<byte>, i: nat)
    requires i < |b| && b[i] == 255 && BigEndian(b[i + 1..]) + 1 == Power(|b| - i - 1)
    ensures BigEndian(b[i..]) + 1 == Power(|b| - i)
  {
    SplitTail(b, i);
    hide BigEndian;
  }

  lemma NothingAfter(b: seq<byte>)
    ensures BigEndian(b[|b|..]) + 1 == Power(0)
  {
  }

  /** Adds one, carrying from the last byte towards the first; all ones have no successor. */
  method NextIP(ip: seq<byte>) returns (next: Option<seq<byte>>)
    requires IsIP(ip)
    ensures next == None <==> BigEndian(Normal(ip)) + 1 == Power(|Normal(ip)|)
    ensures next.Some? ==> |next.value| == |Normal(ip)| && BigEndian(next.value) == BigEndian(Normal(ip)) + 1
  {
    hide BigEndian;
    hide Power;
    hide Normal;
    var start := Normal(ip);
    NothingAfter(start);
    var bytes := new byte[|start|](i requires 0 <= i < |start| => start[i]);
    var i := |start|;
    while i > 0
      invariant 0 <= i <= |start| == bytes.Length
      invariant forall j :: 0 <= j < i ==> bytes[j] == start[j]
      invariant forall j :: i <= j < |start| ==> bytes[j] == 0
      invariant BigEndian(start[i..]) + 1 == Power(|start| - i)
    {
      i := i - 1;
      if start[i] == 255 {
        OnesGoOn(start, i);
      }
      bytes[i] := if bytes[i] == 255 then 0 else bytes[i] + 1;
      if bytes[i] != 0 {
        assert bytes[..][..i] == start[..i];
        CarryStops(start, bytes[..], i);
        ValueInRange(bytes[..]);
        return Some(bytes[..]);
      }
    }
    assert start[0..] == start;
    next := None;
  }

  // ---------------------------------------------------------------- pools

  function Pow2(n: nat): (r: nat)
    ensures r > 0
  {
    if n == 0 then 1 else 2 * Pow2(n - 1)
  }

  lemma {:induction false} TruncateBlock(v: nat, k: nat)
    ensures Truncate(v, k) <= v < Truncate(v, k) + Pow2(k)
  {
    if k > 0 {
      TruncateBlock(v / 2, k - 1);
    }
  }

  /** Blocks of one size do not overlap. */
  lemma {:induction false} SameBlock(v: nat, w: nat, k: nat)
    requires Truncate(w, k) == w && w <= v < w + Pow2(k)
    ensures Truncate(v, k) == w
  {
    if k > 0 {
      assert w == 2 * Truncate(w / 2, k - 1);
      SameBlock(v / 2, w / 2, k - 1);
    }
  }

  /** A parsed network: host bits cleared, and within its family. */
  ghost predicate IsNetwork(p: Prefix) {
    && p.length <= Bits(p.family)
    && Truncate(p.network, Bits(p.family) - p.length) == p.network
    && Top(p) <= Power(Octets(p.family))
  }

  predicate Mapped(v: nat) {
    MAPPED_START <= v < MAPPED_END
  }

  /** A network as the scan sees it: no IPv6 network in mapped form. */
  ghost predicate IsPool(p: Prefix) {
    IsNetwork(p) && (p.family == V6 ==> !Mapped(p.network))
  }

  function Octets(f: Family): nat {
    if f == V4 then 4 else 16
  }

  /** The first value past the pool. */
  function Top(p: Prefix): nat
    requires p.length <= Bits(p.family)
  {
    p.network + Pow2(Bits(p.family) - p.length)
  }

  lemma InPool(p: Prefix, v: nat)
    requires IsNetwork(p)
    ensures Contains(p, Address(p.family, v)) <==> p.network <= v < Top(p)
  {
    var k := Bits(p.family) - p.length;
    TruncateBlock(v, k);
    if p.network <= v < Top(p) {
      SameBlock(v, p.network, k);
    }
  }

  /** Where the scan of a pool ends: past its last address, but an IPv6 pool is only scanned up to
      the mapped range, whose addresses count as IPv4. */
  function ScanEnd(p: Prefix): nat
    requires p.length <= Bits(p.family)
  {
    if p.family == V6 && p.network < MAPPED_START < Top(p) then MAPPED_START else Top(p)
  }

  /** The mapped form is exactly the mapped range. */
  lemma MappedRange(ip: seq<byte>)
    requires |ip| == 16
    ensures To4(ip).Some? <==> Mapped(BigEndian(ip))
  {
    hide BigEndian;
    hide Power;
    var high, low := ip[..12], ip[12..];
    assert ip == high + low;
    ValueOfJoined(high, low);
    ValueInRange(low);
    FourOctets();
    MappedPrefixValue();
    if BigEndian(high) == 0xFFFF {
      SameValueSameBytes(high, MAPPED_PREFIX);
    }
  }

  lemma FourOctets()
    ensures Power(4) == 0x1_0000_0000
  {
    assert Power(1) == 256 && Power(2) == 65536 && Power(3) == 0x100_0000;
  }

  lemma MappedPrefixValue()
    ensures BigEndian(MAPPED_PREFIX) == 0xFFFF
  {
    var zeros := MAPPED_PREFIX[..10];
    ZerosAreZero(zeros);
    assert MAPPED_PREFIX[..11][..10] == zeros;
    assert BigEndian(MAPPED_PREFIX[..11]) == BigEndian(zeros) * 256 + 255;
  }

  /** Whether a candidate lies in the pool, as net.IPNet tells it: no address, or one of the other
      family, does not. */
  method PoolContains(p: Prefix, ip: Option<seq<byte>>) returns (inside: bool)
    requires IsPool(p) && (ip.Some? ==> IsIP(ip.value))
    ensures inside <==> ip.Some? && Contains(p, AddressOf(ip.value))
  {
    inside := ip.Some? && Contains(p, AddressOf(ip.value));
  }

  // ---------------------------------------------------------------- mapped notation

  lemma {:induction false} Pow2Add(a: nat, b: nat)
    ensures Pow2(a + b) == Pow2(a) * Pow2(b)
  {
    if a > 0 {
      Pow2Add(a - 1, b);
    }
  }

  lemma {:induction false} OctetsAreBits(n: nat)
    ensures Power(n) == Pow2(8 * n)
  {
    if n > 0 {
      OctetsAreBits(n - 1);
      Pow2Add(8, 8 * (n - 1));
      EightBits();
    }
  }

  lemma EightBits()
    ensures Pow2(8) == 256
  {
    assert Pow2(4) == 16;
    Pow2Add(4, 4);
  }

  lemma Pow2Of32()
    ensures Pow2(32) == 0x1_0000_0000
  {
    OctetsAreBits(4);
    FourOctets();
  }

  function Quotient(v: nat, k: nat): nat {
    if k == 0 then v else Quotient(v / 2, k - 1)
  }

  /** Truncation keeps a whole number of blocks. */
  lemma {:induction false} TruncateIsMultiple(v: nat, k: nat)
    ensures Truncate(v, k) == Quotient(v, k) * Pow2(k)
  {
    if k > 0 {
      TruncateIsMultiple(v / 2, k - 1);
    }
  }

  lemma {:induction false} MultipleIsTruncated(m: nat, k: nat)
    ensures Truncate(m * Pow2(k), k) == m * Pow2(k)
  {
    if k > 0 {
      MultipleIsTruncated(m, k - 1);
      assert m * Pow2(k) == 2 * (m * Pow2(k - 1));
      assert (m * Pow2(k)) / 2 == m * Pow2(k - 1);
    }
  }

  lemma BlocksFit(q: nat, n: nat, p: nat)
    ensures q * p < n * p ==> (q + 1) * p <= n * p
  {
    if q < n {
      MoreBlocks(q, n - q - 1, p);
    } else {
      assert (n + (q - n)) * p == n * p + (q - n) * p;
    }
  }

  lemma NoFewerBlocks(q: nat, n: nat, p: nat)
    ensures q * p >= n * p && p > 0 ==> q >= n
  {
    if q < n {
      MoreBlocks(q, n - q - 1, p);
    }
  }

  lemma MoreBlocks(q: nat, d: nat, p: nat)
    ensures (q + 1 + d) * p >= q * p + p == (q + 1) * p
  {
    assert (q + 1 + d) * p == q * p + p + d * p;
  }

  /** What the parser makes of a text "address/length". */
  ghost predicate WellFormed(c: Cidr) {
    c.length <= Bits(c.address.family) && c.address.value < Power(Octets(c.address.family))
  }

  lemma ParsedIsNetwork(c: Cidr)
    requires WellFormed(c)
    ensures IsNetwork(NetworkOf(c.address, c.length))
  {
    hide Truncate;
    hide Quotient;
    hide Pow2;
    hide Power;
    var f := c.address.family;
    var k := Bits(f) - c.length;
    var q := Quotient(c.address.value, k);
    OctetsAreBits(Octets(f));
    TruncateIsMultiple(c.address.value, k);
    TruncateBlock(c.address.value, k);
    MultipleIsTruncated(q, k);
    Pow2Add(c.length, k);
    BlocksFit(q, Pow2(c.length), Pow2(k));
  }

  /** The network the allocation works with: one in mapped notation counts as the IPv4 network whose
      mask is the low part of its own. */
  function PoolOf(p: Prefix): Prefix {
    if p.family == V6 && Mapped(p.network) && p.length >= 96 then Prefix(V4, p.network - MAPPED_START, p.length - 96)
       else p
  }

  /** A network that starts in the mapped range lies in it: its mask is at least 96 bits long. */
  lemma MappedIsLong(p: Prefix)
    requires IsNetwork(p) && p.family == V6 && Mapped(p.network)
    ensures p.length >= 96
  {
    hide Truncate;
    hide Quotient;
    hide Pow2;
    hide Power;
    var k := 128 - p.length;
    if k > 32 {
      var q := Quotient(p.network, k);
      TruncateIsMultiple(p.network, k);
      Pow2Of32();
      Pow2Add(k - 33, 1);
      Pow2Add(k - 33 + 1, 32);
      TwoToOne();
      EvenBlocks(p.network, q, Pow2(k - 33));
    }
  }

  lemma TwoToOne()
    ensures Pow2(1) == 2
  {
    assert Pow2(0) == 1;
  }

  lemma EvenBlocks(v: nat, q: nat, r: nat)
    requires v == q * ((r * 2) * 0x1_0000_0000)
    ensures !Mapped(v)
  {
    var m := q * r;
    assert v == m * 0x2_0000_0000;
  }

  /** It is then a well-formed IPv4 network. */
  lemma PoolIsNetwork(p: Prefix)
    requires IsNetwork(p)
    ensures IsPool(PoolOf(p))
  {
    hide Truncate;
    hide Quotient;
    hide Pow2;
    hide Power;
    if p.family == V6 && Mapped(p.network) {
      MappedIsLong(p);
      var k := 128 - p.length;
      var q, u := Quotient(p.network, k), Pow2(32 - k);
      TruncateIsMultiple(p.network, k);
      Pow2Of32();
      Pow2Add(32 - k, k);
      OctetsAreBits(4);
      Shifted(p.network, q, u, Pow2(k));
      MultipleIsTruncated(q - 65535 * u, k);
    }
  }

  lemma Shifted(v: nat, q: nat, u: nat, b: nat)
    requires v == q * b && u * b == 0x1_0000_0000 && b > 0 && Mapped(v)
    ensures q >= 65535 * u && v - MAPPED_START == (q - 65535 * u) * b
    ensures v - MAPPED_START + b <= 0x1_0000_0000
  {
    assert (65535 * u) * b == MAPPED_START && (65536 * u) * b == MAPPED_END;
    NoFewerBlocks(q, 65535 * u, b);
    BlocksFit(q, 65536 * u, b);
    assert (q + 1) * b == v + b;
  }

  /** Equal texts mean equal addresses: a mapped address is written as the IPv4 one. */
  function Written(a: Address): Address {
    if a.family == V6 && Mapped(a.value) then Address(V4, a.value - MAPPED_START) else a
  }

  /** The text of an address in 16 bytes is that of its IPv4 form if it has one. */
  lemma WrittenIsText(ip: seq<byte>)
    requires |ip| == 16
    ensures AddressOf(ip) == Written(Address(V6, BigEndian(ip)))
  {
    MappedRange(ip);
    if Mapped(BigEndian(ip)) {
      assert ip == ip[..12] + ip[12..];
      ValueOfJoined(ip[..12], ip[12..]);
      FourOctets();
      MappedPrefixValue();
    }
    hide BigEndian;
    hide Power;
  }

  /** A network in mapped notation holds the addresses of its IPv4 form, written as IPv4. */
  lemma PoolIsSame(p: Prefix, v: nat)
    requires IsNetwork(p) && p.family == V6 && Mapped(p.network)
    ensures PoolOf(p).family == V4
    ensures Contains(p, Address(V6, v)) <==> Contains(PoolOf(p), Written(Address(V6, v)))
  {
    hide Truncate;
    hide Power;
    hide Contains;
    MappedIsLong(p);
    PoolIsNetwork(p);
    InPool(p, v);
    InPool(PoolOf(p), if Mapped(v) then v - MAPPED_START else v);
    FourOctets();
    assert Top(PoolOf(p)) == Top(p) - MAPPED_START;
    OtherFamily(PoolOf(p), Written(Address(V6, v)));
    hide Pow2;
  }

  lemma OtherFamily(p: Prefix, a: Address)
    ensures Contains(p, a) ==> p.family == a.family
  {
  }

  /** The address is the server's, in use, or the broadcast address, which a network in mapped notation
      is not spared. */
  ghost predicate InUse(net: Prefix, server: Address, taken: seq<Address>, a: Address)
    requires net.length <= Bits(net.family)
  {
    || a == Written(server)
    || (exists t :: t in taken && a == Written(t))
    || (net.family == V4 && a == Address(V4, Top(net) - 1))
  }

  /** The addresses the scan passes over: those in use and, for IPv4, the network address. The broadcast
      address of a network in mapped notation comes out as its network address. */
  method UsedAddresses(net: Prefix, server: Address, taken: seq<Address>) returns (used: set<Address>)
    requires IsNetwork(net)
    ensures var pool := PoolOf(net);
            forall a :: a in used <==>
              InUse(net, server, taken, a) || (pool.family == V4 && a == Address(V4, pool.network))
  {
    hide Truncate;
    hide Pow2;
    hide Power;
    var pool := PoolOf(net);
    used := {Written(server)};
    if pool.family == V4 {
      used := used + {Address(V4, pool.network)};
      used := used + {if net.family == V4 then Address(V4, Top(net) - 1) else Address(V4, pool.network)};
    }
    assert forall a :: a in used <==>
        InUse(net, server, taken[..0], a) || (pool.family == V4 && a == Address(V4, pool.network));
    for i := 0 to |taken|
      invariant forall a :: a in used <==>
        InUse(net, server, taken[..i], a) || (pool.family == V4 && a == Address(V4, pool.network))
    {
      assert taken[..i + 1] == taken[..i] + [taken[i]];
      used := used + {Written(taken[i])};
    }
    assert taken[..|taken|] == taken;
  }

  /** The address is IPv4, in whichever notation. */
  predicate IsV4(c: Cidr) {
    Written(c.address).family == V4
  }

  /** The first IPv4 entry of the server's address list, or the first entry at all. */
  function AllocationNetwork(addresses: seq<Option<Cidr>>): Option<Cidr> {
    if addresses == [] then None
    else
      var init, last := AllocationNetwork(addresses[..|addresses| - 1]), addresses[|addresses| - 1];
      if init.Some? && IsV4(init.value) then init
      else if last.Some? && (init == None || IsV4(last.value)) then last
      else init
  }

  /** An IPv4 address, or an IPv6 one in ::ffff:0:0/96. */
  ghost predicate ReadsAsV4(a: Address) {
    a.family == V4 || 0xFFFF_0000_0000 <= a.value < 0x1_0000_0000_0000
  }

  /** The entry at i: nothing but entries of the other notation stands before it, and only if it is
      IPv4. */
  ghost predicate FirstChoice(addresses: seq<Option<Cidr>>, i: int) {
    && 0 <= i < |addresses| && addresses[i].Some?
    && forall j :: 0 <= j < i && addresses[j].Some? ==>
         ReadsAsV4(addresses[i].value.address) && !ReadsAsV4(addresses[j].value.address)
  }

  /** It is an IPv4 entry whenever there is one, missing only when no entry parses, and the first of its
      kind. */
  lemma {:induction false} PrefersV4(addresses: seq<Option<Cidr>>)
    ensures var r := AllocationNetwork(addresses);
            && (r == None <==> forall i :: 0 <= i < |addresses| ==> addresses[i] == None)
            && (r.Some? ==> exists i :: FirstChoice(addresses, i) && addresses[i] == r)
            && ((exists i :: 0 <= i < |addresses| && addresses[i].Some? && ReadsAsV4(addresses[i].value.address)) <==>
                r.Some? && ReadsAsV4(r.value.address))
  {
    if addresses != [] {
      var init := addresses[..|addresses| - 1];
      PrefersV4(init);
      assert addresses == init + [addresses[|addresses| - 1]];
      assert forall i :: 0 <= i < |init| ==> init[i] == addresses[i];
      var r := AllocationNetwork(addresses);
      if r == AllocationNetwork(init) && r.Some? {
        var i :| FirstChoice(init, i) && init[i] == r;
        assert FirstChoice(addresses, i);
      } else if r.Some? {
        assert FirstChoice(addresses, |init|);
      }
    }
  }

  method FindAllocationNetwork(addresses: seq<Option<Cidr>>) returns (r: Option<Cidr>)
    ensures r == AllocationNetwork(addresses)
  {
    var first: Option<Cidr> := None;
    for i := 0 to |addresses|
      invariant first == AllocationNetwork(addresses[..i])
      invariant first.Some? ==> !IsV4(first.value)
    {
      assert addresses[..i + 1][..i] == addresses[..i];
      if addresses[i].Some? {
        if first == None {
          first := addresses[i];
        }
        if IsV4(addresses[i].value) {
          FirstV4Stays(addresses, i + 1);
          assert addresses[..|addresses|] == addresses;
          return addresses[i];
        }
      }
    }
    assert addresses[..|addresses|] == addresses;
    r := first;
  }

  lemma {:induction false} FirstV4Stays(addresses: seq<Option<Cidr>>, n: nat)
    requires n <= |addresses|
    requires AllocationNetwork(addresses[..n]).Some? && IsV4(AllocationNetwork(addresses[..n]).value)
    ensures AllocationNetwork(addresses[..|addresses|]) == AllocationNetwork(addresses[..n])
    decreases |addresses| - n
  {
    if n < |addresses| {
      assert addresses[..n + 1][..n] == addresses[..n];
      FirstV4Stays(addresses, n + 1);
    }
  }

  datatype Allocation = Allocated(address: Address) | InvalidServer | Exhausted

  /** The least address above the network address that is not in used, among those the scan reaches. */
  ghost predicate LeastFree(pool: Prefix, used: set<Address>, r: Allocation)
    requires pool.length <= Bits(pool.family)
  {
    && r != InvalidServer
    && (r.Allocated? ==>
          && r.address.family == pool.family && pool.network < r.address.value < ScanEnd(pool)
          && r.address !in used
          && forall v :: pool.network < v < r.address.value ==> Address(pool.family, v) in used)
    && (r == Exhausted <==> forall v :: pool.network < v < ScanEnd(pool) ==> Address(pool.family, v) in used)
  }

  /** The scan: address by address until one is free or outside. */
  method ScanPool(pool: Prefix, used: set<Address>) returns (r: Allocation)
    requires IsPool(pool)
    ensures LeastFree(pool, used, r)
  {
    hide Contains;
    hide Truncate;
    hide Top;
    hide BigEndian;
    hide Power;
    hide Normal;
    hide AddressOf;
    hide ToBytes;
    hide ScanEnd;
    var network := ToBytes(pool.network, Octets(pool.family));
    NetworkBytes(pool, network);
    var ip := NextIP(network);
    ghost var v := pool.network + 1;
    while true
      invariant pool.network < v <= ScanEnd(pool)
      invariant ip == None <==> v == Power(Octets(pool.family))
      invariant ip.Some? ==> |ip.value| == Octets(pool.family) && BigEndian(ip.value) == v
      invariant forall w :: pool.network < w < v ==> Address(pool.family, w) in used
      decreases ScanEnd(pool) - v
    {
      var inside := PoolContains(pool, ip);
      Candidate(pool, ip, v);
      if !inside {
        break;
      }
      if AddressOf(ip.value) !in used {
        return Allocated(AddressOf(ip.value));
      }
      ip := NextIP(ip.value);
      v := v + 1;
    }
    r := Exhausted;
  }

  /** The least address of the network that is not in use, above the network address and within what
      the scan can reach; Exhausted exactly if all of those are in use. */
  ghost predicate Picks(net: Prefix, server: Address, taken: seq<Address>, r: Allocation)
    requires net.length <= Bits(net.family)
  {
    var pool := PoolOf(net);
    && r != InvalidServer
    && (r.Allocated? ==>
          && r.address.family == pool.family && pool.network < r.address.value < ScanEnd(pool)
          && !InUse(net, server, taken, r.address)
          && forall v :: pool.network < v < r.address.value ==> InUse(net, server, taken, Address(pool.family, v)))
    && (r == Exhausted <==>
        forall v :: pool.network < v < ScanEnd(pool) ==> InUse(net, server, taken, Address(pool.family, v)))
  }

  method NextFree(net: Prefix, server: Address, taken: seq<Address>) returns (r: Allocation)
    requires IsNetwork(net)
    ensures IsPool(PoolOf(net)) && Picks(net, server, taken, r)
    ensures r.Allocated? ==> r.address != Written(server) && forall t :: t in taken ==> r.address != Written(t)
  {
    hide IsNetwork;
    hide Top;
    hide ScanEnd;
    hide Written;
    PoolIsNetwork(net);
    var used := UsedAddresses(net, server, taken);
    r := ScanPool(PoolOf(net), used);
  }

  lemma NetworkBytes(pool: Prefix, network: seq<byte>)
    requires IsPool(pool) && network == ToBytes(pool.network, Octets(pool.family))
    ensures IsIP(network) && Normal(network) == network && BigEndian(network) == pool.network
    ensures pool.network < ScanEnd(pool)
  {
    BytesBack(pool.network, Octets(pool.family));
    if pool.family == V6 {
      MappedRange(network);
    }
  }

  /** What the scan sees at value v: inside exactly below the end of the scan. */
  lemma Candidate(pool: Prefix, ip: Option<seq<byte>>, v: nat)
    requires IsPool(pool) && pool.network < v <= ScanEnd(pool)
    requires ip == None <==> v == Power(Octets(pool.family))
    requires ip.Some? ==> |ip.value| == Octets(pool.family) && BigEndian(ip.value) == v
    ensures ip.Some? && Contains(pool, AddressOf(ip.value)) <==> v < ScanEnd(pool)
    ensures v < ScanEnd(pool) ==>
            ip.Some? && AddressOf(ip.value) == Address(pool.family, v) && Normal(ip.value) == ip.value
  {
    InPool(pool, v);
    if ip.Some? && pool.family == V6 {
      MappedRange(ip.value);
    }
  }

  /** The allocation as a whole, for any address list and whatever is taken. */
  method NextAvailableIP(server: seq<Option<Cidr>>, taken: seq<Address>) returns (r: Allocation)
    requires forall i :: 0 <= i < |server| && server[i].Some? ==> WellFormed(server[i].value)
    ensures r == InvalidServer <==> forall i :: 0 <= i < |server| ==> server[i] == None
    ensures r != InvalidServer ==>
              && AllocationNetwork(server).Some?
              && var c := AllocationNetwork(server).value;
                 var net := NetworkOf(c.address, c.length);
                 && IsPool(PoolOf(net)) && Picks(net, c.address, taken, r)
                 && (r.Allocated? ==> Contains(PoolOf(net), r.address) && r.address != Written(c.address))
    ensures r.Allocated? ==> forall t :: t in taken ==> r.address != Written(t)
  {
    hide Picks;
    hide Truncate;
    hide Contains;
    hide PoolOf;
    PrefersV4(server);
    var found := FindAllocationNetwork(server);
    if found == None {
      return InvalidServer;
    }
    ParsedIsNetwork(found.value);
    var net := NetworkOf(found.value.address, found.value.length);
    r := NextFree(net, found.value.address, taken);
    PickedInPool(net, found.value.address, taken, r);
  }

  lemma PickedInPool(net: Prefix, server: Address, taken: seq<Address>, r: Allocation)
    requires IsNetwork(net) && IsPool(PoolOf(net)) && Picks(net, server, taken, r)
    ensures r != InvalidServer && (r.Allocated? ==> Contains(PoolOf(net), r.address))
  {
    hide InUse;
    hide Contains;
    hide Truncate;
    hide PoolOf;
    if r.Allocated? {
      InPool(PoolOf(net), r.address.value);
    }
  }

  /** The broadcast address of an IPv4 pool is never handed out, unless the pool was written in mapped
      notation and is larger than one address: then it is, once all others are in use. */
  lemma BroadcastKept(net: Prefix)
    requires IsNetwork(net) && IsPool(PoolOf(net)) && PoolOf(net).family == V4
    ensures (forall server, taken, r :: Picks(net, server, taken, r) ==>
                 r != Allocated(Address(V4, Top(PoolOf(net)) - 1)))
            <==> net.family == V4 || net.length == 128
  {
    hide Pow2;
    hide Truncate;
    hide Power;
    var pool := PoolOf(net);
    var broadcast := Address(V4, Top(pool) - 1);
    OneAddress(32 - pool.length);
    if net.family == V6 && net.length != 128 {
      var server, taken, r := BroadcastPicked(net);
    }
  }

  lemma BroadcastPicked(net: Prefix) returns (server: Address, taken: seq<Address>, r: Allocation)
    requires IsNetwork(net) && IsPool(PoolOf(net)) && PoolOf(net).family == V4
    requires net.family == V6 && Top(PoolOf(net)) - 1 > PoolOf(net).network
    ensures Picks(net, server, taken, r) && r == Allocated(Address(V4, Top(PoolOf(net)) - 1))
  {
    hide Top;
    hide Truncate;
    hide Power;
    var pool := PoolOf(net);
    var n := Top(pool) - 2 - pool.network;
    r := Allocated(Address(V4, Top(pool) - 1));
    server := Address(V4, pool.network);
    taken := seq(n, i requires 0 <= i < n => Address(V4, pool.network + 1 + i));
    forall v | pool.network < v < Top(pool) - 1
      ensures InUse(net, server, taken, Address(V4, v))
    {
      assert taken[v - pool.network - 1] == Address(V4, v) == Written(Address(V4, v));
    }
  }

  lemma OneAddress(k: nat)
    ensures Pow2(k) == 1 <==> k == 0
  {
  }

  /** The scan covers the whole pool, so Exhausted means that nothing is free, unless the pool is an
      IPv6 one that runs into the mapped range. */
  lemma ScanIsComplete(pool: Prefix)
    requires IsPool(pool)
    ensures (forall v: nat :: Contains(pool, Address(pool.family, v)) && v > pool.network ==> v < ScanEnd(pool)) <==>
            !(pool.family == V6 && pool.network < MAPPED_START < Top(pool))
  {
    forall v: nat
      ensures Contains(pool, Address(pool.family, v)) <==> pool.network <= v < Top(pool)
    {
      InPool(pool, v);
    }
    if pool.family == V6 && pool.network < MAPPED_START < Top(pool) {
      assert Contains(pool, Address(pool.family, MAPPED_START));
    }
  }
}
