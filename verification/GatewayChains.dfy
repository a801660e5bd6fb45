/** The forwarding and NAT rules of VPN gateways, and the ZeroTier masquerade. */
module GatewayChains {
  import opened Lists
  import opened Network
  import opened Models
  import opened Kernel

  // ---------------------------------------------------------------- gateway chains

  function GatewayJump(f: Family): FwRule {
    FwRule(Some(WG_DEVICE), None, None, None, false, false, Jump(GatewayChain(f)))
  }

  const NAT_JUMP: FwRule := FwRule(None, None, None, None, false, false, Jump(GatewayNat))

  const GATEWAY_INIT: seq<Cmd> := [
    NewChain(GatewayChain(V4)), FlushChain(GatewayChain(V4), false), EnsureFirst(Forward(V4), GatewayJump(V4)),
    NewChain(GatewayNat), FlushChain(GatewayNat, false), EnsureFirst(Postrouting, NAT_JUMP),
    NewChain(GatewayChain(V6)), FlushChain(GatewayChain(V6), false), EnsureFirst(Forward(V6), GatewayJump(V6))]

  function AcceptOut(src: Prefix, device: string): FwRule {
    FwRule(None, Some(device), Some(src), None, false, false, Accept)
  }

  function AcceptBack(device: string, dest: Prefix): FwRule {
    FwRule(Some(device), Some(WG_DEVICE), None, Some(dest), true, false, Accept)
  }

  function MasqueradeOut(src: Prefix, device: string): FwRule {
    FwRule(None, Some(device), Some(src), None, false, false, Masquerade)
  }

  function LanAccess(src: Prefix): Prefix -> seq<Cmd> {
    (dest: Prefix) =>
      if dest.family == V6 then []
      else [Append(GatewayChain(V4), FwRule(None, None, Some(src), Some(dest), false, false, Accept)),
            Append(GatewayNat, FwRule(None, None, Some(src), Some(dest), false, false, Masquerade)),
            Append(GatewayChain(V4), FwRule(None, None, None, Some(dest), true, false, Accept))]
  }

  function LanSourceCmds(lan: seq<Prefix>, src: Prefix): seq<Cmd> {
    if src.family == V6 then [] else FlatMap(LanAccess(src), lan)
  }

  function LanSourceAccess(lan: seq<Prefix>): Prefix -> seq<Cmd> {
    (src: Prefix) => LanSourceCmds(lan, src)
  }

  function LanPeerAccess(lan: seq<Prefix>): Peer -> seq<Cmd> {
    (p: Peer) => if p.enabled then FlatMap(LanSourceAccess(lan), Sources(p)) else []
  }

  /** IPv6 sources are forwarded but not masqueraded. */
  function UplinkAccess(device: string): Prefix -> seq<Cmd> {
    (src: Prefix) =>
      [Append(GatewayChain(src.family), AcceptOut(src, device)),
       Append(GatewayChain(src.family), AcceptBack(device, src))]
      + (if src.family == V4 then [Append(GatewayNat, MasqueradeOut(src, device))] else [])
  }

  predicate RunningGateway(gateways: map<string, Gateway>, id: string) {
    id in gateways && gateways[id].enabled && gateways[id].iface != ""
  }

  function UplinkPeerAccess(gateways: map<string, Gateway>): Peer -> seq<Cmd> {
    (p: Peer) => if p.enabled && p.vpnGatewayId != "" && RunningGateway(gateways, p.vpnGatewayId)
         then FlatMap(UplinkAccess(gateways[p.vpnGatewayId].iface), Sources(p)) else []
  }

  function UplinkDeviceCmds(gateways: map<string, Gateway>, d: DeviceRule): seq<Cmd> {
    if d.enabled && d.gatewayId != "" && RunningGateway(gateways, d.gatewayId) && d.device.family == V4
    then UplinkAccess(gateways[d.gatewayId].iface)(HostPrefix(d.device)) else []
  }

  function UplinkDevice(gateways: map<string, Gateway>): DeviceRule -> seq<Cmd> {
    (d: DeviceRule) => UplinkDeviceCmds(gateways, d)
  }

  function UplinkDeviceAccess(gateways: map<string, Gateway>): Peer -> seq<Cmd> {
    (p: Peer) => if p.enabled then FlatMap(UplinkDevice(gateways), p.devices) else []
  }

  /** What the gateway chains are filled with, after their initialisation. */
  function GatewayAppends(cfg: Config, lan: seq<Prefix>): seq<Cmd> {
    var gateways := GatewayInterfaces(cfg.gateways);
    FlatMap(LanPeerAccess(lan), cfg.peers)
    + FlatMap(UplinkPeerAccess(gateways), cfg.peers)
    + FlatMap(UplinkDeviceAccess(gateways), cfg.peers)
  }

  /** A rule of the gateway chains: it accepts, or masquerades in the NAT chain. */
  ghost predicate IsGatewayAppend(c: Cmd) {
    && c.Append? && c.rule.FwRule?
    && ((c.chain == GatewayNat && c.rule.target == Masquerade) || (c.chain.GatewayChain? && c.rule.target == Accept))
  }

  lemma LanAccessShape(lan: seq<Prefix>, p: Peer, c: Cmd)
    requires c in LanPeerAccess(lan)(p)
    ensures IsGatewayAppend(c)
  {
    hide FlatMap;
    hide Distinct;
    InFlatMap(LanSourceAccess(lan), Sources(p), c);
    var src :| src in Sources(p) && c in LanSourceCmds(lan, src);
    InFlatMap(LanAccess(src), lan, c);
    var dest :| dest in lan && c in LanAccess(src)(dest);
  }

  lemma UplinkShape(device: string, src: Prefix, c: Cmd)
    requires c in UplinkAccess(device)(src)
    ensures IsGatewayAppend(c)
  {
  }

  lemma UplinkPeerShape(gateways: map<string, Gateway>, p: Peer, c: Cmd)
    requires c in UplinkPeerAccess(gateways)(p)
    ensures IsGatewayAppend(c)
  {
    hide FlatMap;
    hide Distinct;
    var device := gateways[p.vpnGatewayId].iface;
    InFlatMap(UplinkAccess(device), Sources(p), c);
    var src :| src in Sources(p) && c in UplinkAccess(device)(src);
    UplinkShape(device, src, c);
  }

  lemma UplinkDeviceShape(gateways: map<string, Gateway>, p: Peer, c: Cmd)
    requires c in UplinkDeviceAccess(gateways)(p)
    ensures IsGatewayAppend(c)
  {
    hide FlatMap;
    hide Distinct;
    InFlatMap(UplinkDevice(gateways), p.devices, c);
    var d :| d in p.devices && c in UplinkDeviceCmds(gateways, d);
    UplinkShape(gateways[d.gatewayId].iface, HostPrefix(d.device), c);
  }

  lemma GatewayAppendsShape(cfg: Config, lan: seq<Prefix>, c: Cmd)
    requires c in GatewayAppends(cfg, lan)
    ensures IsGatewayAppend(c)
  {
    hide FlatMap;
    hide Distinct;
    var gateways := GatewayInterfaces(cfg.gateways);
    InFlatMap(LanPeerAccess(lan), cfg.peers, c);
    InFlatMap(UplinkPeerAccess(gateways), cfg.peers, c);
    InFlatMap(UplinkDeviceAccess(gateways), cfg.peers, c);
    if p :| p in cfg.peers && c in LanPeerAccess(lan)(p) {
      LanAccessShape(lan, p, c);
    } else if p :| p in cfg.peers && c in UplinkPeerAccess(gateways)(p) {
      UplinkPeerShape(gateways, p, c);
    } else {
      var p :| p in cfg.peers && c in UplinkDeviceAccess(gateways)(p);
      UplinkDeviceShape(gateways, p, c);
    }
  }

  function GatewayUp(cfg: Config, lan: seq<Prefix>): seq<Cmd> {
    GATEWAY_INIT + GatewayAppends(cfg, lan)
  }

  method GenerateLanAccess(p: Peer, lan: seq<Prefix>) returns (cmds: seq<Cmd>)
    ensures cmds == LanPeerAccess(lan)(p)
  {
    hide FlatMap;
    hide Distinct;
    cmds := [];
    if !p.enabled {
      return;
    }
    var sources := PeerSources(p);
    FlatMapEmpty(LanSourceAccess(lan), sources);
    for j := 0 to |sources|
      invariant cmds == FlatMap(LanSourceAccess(lan), sources[..j])
    {
      FlatMapStep(LanSourceAccess(lan), sources, j);
      var own: seq<Cmd> := [];
      if sources[j].family != V6 {
        FlatMapEmpty(LanAccess(sources[j]), lan);
        for n := 0 to |lan|
          invariant own == FlatMap(LanAccess(sources[j]), lan[..n])
        {
          FlatMapStep(LanAccess(sources[j]), lan, n);
          if lan[n].family != V6 {
            own := own + LanAccess(sources[j])(lan[n]);
          }
        }
        FlatMapWhole(LanAccess(sources[j]), lan);
      }
      cmds := cmds + own;
    }
    FlatMapWhole(LanSourceAccess(lan), sources);
  }

  method GenerateUplinkPeer(p: Peer, gateways: map<string, Gateway>) returns (cmds: seq<Cmd>)
    ensures cmds == UplinkPeerAccess(gateways)(p)
  {
    hide FlatMap;
    hide Distinct;
    cmds := [];
    if !p.enabled || p.vpnGatewayId == "" || !RunningGateway(gateways, p.vpnGatewayId) {
      return;
    }
    var access := UplinkAccess(gateways[p.vpnGatewayId].iface);
    var sources := PeerSources(p);
    FlatMapEmpty(access, sources);
    for j := 0 to |sources|
      invariant cmds == FlatMap(access, sources[..j])
    {
      FlatMapStep(access, sources, j);
      cmds := cmds + access(sources[j]);
    }
    FlatMapWhole(access, sources);
  }

  method GenerateUplinkDevices(p: Peer, gateways: map<string, Gateway>) returns (cmds: seq<Cmd>)
    ensures cmds == UplinkDeviceAccess(gateways)(p)
  {
    hide FlatMap;
    hide Distinct;
    cmds := [];
    if !p.enabled {
      return;
    }
    FlatMapEmpty(UplinkDevice(gateways), p.devices);
    for j := 0 to |p.devices|
      invariant cmds == FlatMap(UplinkDevice(gateways), p.devices[..j])
    {
      FlatMapStep(UplinkDevice(gateways), p.devices, j);
      cmds := cmds + UplinkDeviceCmds(gateways, p.devices[j]);
    }
    FlatMapWhole(UplinkDevice(gateways), p.devices);
  }

  /** Chain set-up, then three passes over the peers: LAN access, uplinks of peers, uplinks of devices. */
  method GenerateGatewayUp(cfg: Config, lan: seq<Prefix>) returns (cmds: seq<Cmd>)
    ensures cmds == GatewayUp(cfg, lan)
  {
    hide FlatMap;
    hide Distinct;
    var gateways := GatewayInterfaces(cfg.gateways);
    var access, uplinks, devices: seq<Cmd> := [], [], [];
    FlatMapEmpty(LanPeerAccess(lan), cfg.peers);
    for i := 0 to |cfg.peers|
      invariant access == FlatMap(LanPeerAccess(lan), cfg.peers[..i])
    {
      FlatMapStep(LanPeerAccess(lan), cfg.peers, i);
      var own := GenerateLanAccess(cfg.peers[i], lan);
      access := access + own;
    }
    FlatMapWhole(LanPeerAccess(lan), cfg.peers);
    FlatMapEmpty(UplinkPeerAccess(gateways), cfg.peers);
    for i := 0 to |cfg.peers|
      invariant uplinks == FlatMap(UplinkPeerAccess(gateways), cfg.peers[..i])
    {
      FlatMapStep(UplinkPeerAccess(gateways), cfg.peers, i);
      var own := GenerateUplinkPeer(cfg.peers[i], gateways);
      uplinks := uplinks + own;
    }
    FlatMapWhole(UplinkPeerAccess(gateways), cfg.peers);
    FlatMapEmpty(UplinkDeviceAccess(gateways), cfg.peers);
    for i := 0 to |cfg.peers|
      invariant devices == FlatMap(UplinkDeviceAccess(gateways), cfg.peers[..i])
    {
      FlatMapStep(UplinkDeviceAccess(gateways), cfg.peers, i);
      var own := GenerateUplinkDevices(cfg.peers[i], gateways);
      devices := devices + own;
    }
    FlatMapWhole(UplinkDeviceAccess(gateways), cfg.peers);
    cmds := GATEWAY_INIT + (access + uplinks + devices);
  }

  const GATEWAY_DOWN: seq<Cmd> := [
    Remove(Forward(V4), GatewayJump(V4)), FlushChain(GatewayChain(V4), true), DropChain(GatewayChain(V4)),
    Remove(Postrouting, NAT_JUMP), FlushChain(GatewayNat, true), DropChain(GatewayNat),
    Remove(Forward(V6), GatewayJump(V6)), FlushChain(GatewayChain(V6), true), DropChain(GatewayChain(V6))]

  // ---------------------------------------------------------------- ZeroTier NAT

  const ZT_MASQUERADE: FwRule := FwRule(None, Some("zt+"), None, None, false, false, Masquerade)

  function BypassRule(p: Prefix): FwRule {
    FwRule(None, Some("zt+"), Some(p), None, false, false, Accept)
  }

  predicate ZeroTierNat(cfg: Config) {
    cfg.zeroTier.enabled && !cfg.zeroTier.disableMasquerade
  }

  function BypassSpecs(inp: Inputs): (r: seq<FwRule>)
    ensures forall x :: x in r ==> exists p :: p in inp.bypass && x == BypassRule(p)
  {
    if inp.cfg.zeroTier.excludeAdvertised
    then seq(|inp.bypass|, i requires 0 <= i < |inp.bypass| => BypassRule(inp.bypass[i]))
    else []
  }

  function EnsureAllFirst(specs: seq<FwRule>): (r: seq<Cmd>)
    ensures |r| == |specs| && forall i :: 0 <= i < |specs| ==> r[i] == EnsureFirst(Postrouting, specs[i])
  {
    seq(|specs|, i requires 0 <= i < |specs| => EnsureFirst(Postrouting, specs[i]))
  }

  function RemoveAll(specs: seq<FwRule>): (r: seq<Cmd>)
    ensures |r| == |specs| && forall i :: 0 <= i < |specs| ==> r[i] == Remove(Postrouting, specs[i])
  {
    seq(|specs|, i requires 0 <= i < |specs| => Remove(Postrouting, specs[i]))
  }

  function ZeroTierUp(inp: Inputs): seq<Cmd> {
    if ZeroTierNat(inp.cfg) then EnsureAllFirst(BypassSpecs(inp)) + [EnsureLast(Postrouting, ZT_MASQUERADE)] else []
  }

  function ZeroTierDown(inp: Inputs): seq<Cmd> {
    if ZeroTierNat(inp.cfg) then [Remove(Postrouting, ZT_MASQUERADE)] + RemoveAll(BypassSpecs(inp)) else []
  }
}
