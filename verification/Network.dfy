/** Addresses, CIDR prefixes and the resolution of a policy-route gateway to a device. */
module Network {
  import opened Lists

  const WG_DEVICE := "wg0"

  datatype Family = V4 | V6

  function Bits(f: Family): nat {
    if f == V4 then 32 else 128
  }

  /** v with its lowest bits cleared. */
  function Truncate(v: nat, bits: nat): nat {
    if bits == 0 then v else 2 * Truncate(v / 2, bits - 1)
  }

  datatype Address = Address(family: Family, value: nat)

  /** A network: the address with all bits below the prefix length cleared. */
  datatype Prefix = Prefix(family: Family, network: nat, length: nat)

  /** A parsed "address/length" text, host bits included. */
  datatype Cidr = Cidr(address: Address, length: nat)

  /** The network of the given length an address lies in (the mask operation of net.ParseCIDR). */
  function NetworkOf(a: Address, length: nat): Prefix {
    Prefix(a.family, if length <= Bits(a.family) then Truncate(a.value, Bits(a.family) - length) else a.value, length)
  }

  predicate Contains(p: Prefix, a: Address) {
    p.family == a.family && NetworkOf(a, p.length) == p
  }

  function DefaultRoute(f: Family): Prefix {
    Prefix(f, 0, 0)
  }

  predicate IsHost(p: Prefix) {
    p.length == Bits(p.family)
  }

  /** The network of a single address. */
  function HostPrefix(a: Address): Prefix {
    NetworkOf(a, Bits(a.family))
  }

  /** An on-link network together with the interface it is reachable through. */
  datatype GatewayNet = GatewayNet(device: string, net: Prefix)

  datatype Resolution = Resolved(device: string) | Ambiguous | Unresolved

  /** n is one of the longest networks that contain the gateway. */
  ghost predicate Longest(gateway: Address, nets: seq<GatewayNet>, n: GatewayNet) {
    && n in nets
    && Contains(n.net, gateway)
    && forall m :: m in nets && Contains(m.net, gateway) ==> m.net.length <= n.net.length
  }

  /** What the longest matching networks say, without reference to their order. */
  ghost predicate Resolves(gateway: Address, nets: seq<GatewayNet>, r: Resolution) {
    match r
    case Unresolved =>
      forall n :: n in nets ==> !Contains(n.net, gateway)
    case Ambiguous =>
      exists m, n :: Longest(gateway, nets, m) && Longest(gateway, nets, n) && m.device != n.device
    case Resolved(d) =>
      && (exists n :: Longest(gateway, nets, n))
      && forall n :: Longest(gateway, nets, n) ==> n.device == d
  }

  /** State of the one-pass scan: best prefix length so far (-1 for none), its device, and
      whether a second device was seen at that length. */
  datatype Scan = Scan(best: int, device: string, ambiguous: bool)

  function ScanNet(s: Scan, gateway: Address, n: GatewayNet): Scan {
    if !Contains(n.net, gateway) then s
    else if n.net.length > s.best then Scan(n.net.length, n.device, false)
    else if n.net.length == s.best && n.device != s.device then s.(ambiguous := true)
    else s
  }

  function ScanNets(gateway: Address, nets: seq<GatewayNet>): Scan {
    if nets == [] then Scan(-1, "", false)
    else ScanNet(ScanNets(gateway, nets[..|nets| - 1]), gateway, nets[|nets| - 1])
  }

  function Resolve(gateway: Address, nets: seq<GatewayNet>): Resolution {
    var s := ScanNets(gateway, nets);
    if s.ambiguous then Ambiguous else if s.best == -1 then Unresolved else Resolved(s.device)
  }

  /** The interface a gateway is reachable on, or "" when unresolved or ambiguous. */
  function DeviceFor(gateway: Address, nets: seq<GatewayNet>): string {
    match Resolve(gateway, nets)
    case Resolved(d) => d
    case _ => ""
  }

  /** What the scan knows after a set of networks. */
  ghost predicate ScanInvariant(gateway: Address, nets: seq<GatewayNet>, s: Scan) {
    && (s.best == -1 ==> !s.ambiguous && forall n :: n in nets ==> !Contains(n.net, gateway))
    && (s.best != -1 ==>
          && (exists n :: Longest(gateway, nets, n) && n.net.length == s.best && n.device == s.device)
          && (s.ambiguous <==> exists n :: Longest(gateway, nets, n) && n.device != s.device))
    && s.best >= -1
  }

  lemma LongestSnoc(gateway: Address, nets: seq<GatewayNet>, x: GatewayNet, n: GatewayNet)
    ensures Longest(gateway, nets + [x], n) <==>
            if Contains(x.net, gateway) then
              || (n == x && forall m :: m in nets && Contains(m.net, gateway) ==> m.net.length <= x.net.length)
              || (Longest(gateway, nets, n) && x.net.length <= n.net.length)
            else Longest(gateway, nets, n)
  {
    assert forall m :: m in nets + [x] <==> m in nets || m == x;
  }

  lemma ScanKeepsInvariant(gateway: Address, nets: seq<GatewayNet>, x: GatewayNet, s: Scan)
    requires ScanInvariant(gateway, nets, s)
    ensures ScanInvariant(gateway, nets + [x], ScanNet(s, gateway, x))
  {
    forall n { LongestSnoc(gateway, nets, x, n); }
    if Contains(x.net, gateway) {
      if s.best == -1 || x.net.length > s.best {
        assert Longest(gateway, nets + [x], x);
        if s.best != -1 {
          var w :| Longest(gateway, nets, w) && w.net.length == s.best;
          assert forall n :: Longest(gateway, nets, n) ==> n.net.length == w.net.length;
        }
      } else {
        var w :| Longest(gateway, nets, w) && w.net.length == s.best && w.device == s.device;
        assert x.net.length <= w.net.length;
        assert Longest(gateway, nets + [x], w);
        if x.net.length == s.best {
          assert Longest(gateway, nets + [x], x);
        }
        if s.ambiguous {
          var v :| Longest(gateway, nets, v) && v.device != s.device;
          assert v.net.length == w.net.length;
          assert Longest(gateway, nets + [x], v);
        }
      }
    }
  }

  lemma {:induction false} ScanIsCorrect(gateway: Address, nets: seq<GatewayNet>)
    ensures ScanInvariant(gateway, nets, ScanNets(gateway, nets))
  {
    if nets != [] {
      var init := nets[..|nets| - 1];
      ScanIsCorrect(gateway, init);
      ScanKeepsInvariant(gateway, init, nets[|nets| - 1], ScanNets(gateway, init));
      assert nets == init + [nets[|nets| - 1]];
    }
  }

  /** The scan's answer is the only one the longest matches allow: each outcome is returned
      if and only if the set of longest matches calls for it. */
  lemma ResolveIsExact(gateway: Address, nets: seq<GatewayNet>, r: Resolution)
    ensures Resolves(gateway, nets, r) <==> r == Resolve(gateway, nets)
  {
    ScanIsCorrect(gateway, nets);
    var s := ScanNets(gateway, nets);
    if s.best != -1 {
      var w :| Longest(gateway, nets, w) && w.device == s.device;
      assert Contains(w.net, gateway);
      if s.ambiguous {
        var v :| Longest(gateway, nets, v) && v.device != s.device;
      }
    }
  }

  /** The outcome does not depend on the order, or the repetition, of the networks. */
  lemma ResolveIgnoresOrder(gateway: Address, nets: seq<GatewayNet>, other: seq<GatewayNet>)
    requires forall n :: n in nets <==> n in other
    ensures Resolve(gateway, nets) == Resolve(gateway, other)
  {
    ResolveIsExact(gateway, nets, Resolve(gateway, nets));
    assert forall n :: Longest(gateway, nets, n) <==> Longest(gateway, other, n);
    assert Resolves(gateway, other, Resolve(gateway, nets));
    ResolveIsExact(gateway, other, Resolve(gateway, nets));
  }

  /** The one-pass longest-prefix match with its ambiguity flag. */
  method ResolveGateway(gateway: Address, nets: seq<GatewayNet>) returns (r: Resolution)
    ensures Resolves(gateway, nets, r)
    ensures r == Resolve(gateway, nets)
  {
    var best: int := -1;
    var device := "";
    var ambiguous := false;
    for i := 0 to |nets|
      invariant Scan(best, device, ambiguous) == ScanNets(gateway, nets[..i])
    {
      assert nets[..i + 1][..i] == nets[..i];
      var n := nets[i];
      if Contains(n.net, gateway) {
        if n.net.length > best {
          best, device, ambiguous := n.net.length, n.device, false;
        } else if n.net.length == best {
          if n.device != device {
            ambiguous := true;
          }
        }
      }
    }
    assert nets[..|nets|] == nets;
    if ambiguous {
      r := Ambiguous;
    } else if best == -1 {
      r := Unresolved;
    } else {
      r := Resolved(device);
    }
    ResolveIsExact(gateway, nets, r);
  }
}
