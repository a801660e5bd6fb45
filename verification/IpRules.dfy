/** The policy-routing rules a configuration calls for. Every generator is a loop in the program; here
    each loop is a method proved equal to a specification function, and the theorems are about those
    functions. */
module IpRules {
  import opened Lists
  import opened Network
  import opened Models
  import opened Kernel

  const PEER_BASE: nat := 10000
  const DEVICE_BASE: nat := 16000
  const LOCAL_BASE: nat := 17000
  const GATEWAY_BASE: nat := 18000
  const MAIN_TABLE: nat := 254

  datatype FamilyRule = FamilyRule(family: Family, body: RuleBody)

  datatype IpRule = IpRule(slot: Slot, body: RuleBody)

  /** Consecutive priorities from base on: what the running priority counters amount to. */
  function Number(base: nat, xs: seq<FamilyRule>): (r: seq<IpRule>)
    ensures |r| == |xs|
    ensures forall i :: 0 <= i < |xs| ==> r[i] == IpRule(Slot(xs[i].family, base + i), xs[i].body)
  {
    seq(|xs|, i requires 0 <= i < |xs| => IpRule(Slot(xs[i].family, base + i), xs[i].body))
  }

  /** A rule list with its counter, before and after xs were appended at the counter. */
  ghost predicate Added(rules: seq<IpRule>, prio: nat, xs: seq<FamilyRule>, rules': seq<IpRule>, prio': nat) {
    rules' == rules + Number(prio, xs) && prio' == prio + |xs|
  }

  lemma AddedNothing(rules: seq<IpRule>, prio: nat)
    ensures Added(rules, prio, [], rules, prio)
  {
  }

  lemma AddedBoth(rules: seq<IpRule>, prio: nat, xs: seq<FamilyRule>, rules1: seq<IpRule>, prio1: nat,
                  ys: seq<FamilyRule>, rules2: seq<IpRule>, prio2: nat)
    requires Added(rules, prio, xs, rules1, prio1) && Added(rules1, prio1, ys, rules2, prio2)
    ensures Added(rules, prio, xs + ys, rules2, prio2)
  {
    assert Number(prio, xs + ys) == Number(prio, xs) + Number(prio1, ys);
  }

  /** Appending one rule at the counter and advancing it. */
  method Emit(rules: seq<IpRule>, prio: nat, x: FamilyRule) returns (rules': seq<IpRule>, prio': nat)
    ensures Added(rules, prio, [x], rules', prio')
  {
    rules' := rules + [IpRule(Slot(x.family, prio), x.body)];
    prio' := prio + 1;
  }

  // ---------------------------------------------------------------- peer rules

  function SourceRules(p: Peer, exits: map<string, Peer>, src: Prefix): seq<FamilyRule> {
    (if p.exitNodeId != "" && p.exitNodeId in exits
     then [FamilyRule(src.family, RuleBody(src, None, Lookup(exits[p.exitNodeId].tableId)))] else [])
    + (if p.policyRoutes != [] && p.policyTableId > 0
       then [FamilyRule(src.family, RuleBody(src, None, Lookup(p.policyTableId)))] else [])
    + (if p.strict then [FamilyRule(src.family, RuleBody(src, None, Prohibit))] else [])
  }

  function SourceRulesOf(p: Peer, exits: map<string, Peer>): Prefix -> seq<FamilyRule> {
    (src: Prefix) => SourceRules(p, exits, src)
  }

  function PeerBlock(exits: map<string, Peer>, p: Peer): seq<FamilyRule> {
    if p.enabled then FlatMap(SourceRulesOf(p, exits), Sources(p)) else []
  }

  function PeerBlocks(exits: map<string, Peer>): Peer -> seq<FamilyRule> {
    (p: Peer) => PeerBlock(exits, p)
  }

  function PeerRuleBodies(cfg: Config): seq<FamilyRule> {
    FlatMap(PeerBlocks(ExitNodes(cfg.peers)), cfg.peers)
  }

  function PeerRules(cfg: Config): seq<IpRule> {
    Number(PEER_BASE, PeerRuleBodies(cfg))
  }

  /** The rules of one source: exit table, policy table, reject. */
  method AppendSourceRules(rules: seq<IpRule>, prio: nat, p: Peer, exits: map<string, Peer>, src: Prefix)
    returns (rules': seq<IpRule>, prio': nat)
    ensures Added(rules, prio, SourceRules(p, exits, src), rules', prio')
  {
    rules', prio' := rules, prio;
    if p.exitNodeId != "" {
      if p.exitNodeId in exits {
        rules', prio' := Emit(rules', prio',
            FamilyRule(src.family, RuleBody(src, None, Lookup(exits[p.exitNodeId].tableId))));
      }
    }
    if p.policyRoutes != [] && p.policyTableId > 0 {
      rules', prio' := Emit(rules', prio', FamilyRule(src.family, RuleBody(src, None, Lookup(p.policyTableId))));
    }
    if p.strict {
      rules', prio' := Emit(rules', prio', FamilyRule(src.family, RuleBody(src, None, Prohibit)));
    }
  }

  method AppendPeerRules(rules: seq<IpRule>, prio: nat, p: Peer, exits: map<string, Peer>)
    returns (rules': seq<IpRule>, prio': nat)
    ensures Added(rules, prio, PeerBlock(exits, p), rules', prio')
  {
    hide FlatMap;
    hide Distinct;
    hide Added;
    AddedNothing(rules, prio);
    rules', prio' := rules, prio;
    if !p.enabled {
      return;
    }
    var sources := PeerSources(p);
    FlatMapEmpty(SourceRulesOf(p, exits), sources);
    for j := 0 to |sources|
      invariant Added(rules, prio, FlatMap(SourceRulesOf(p, exits), sources[..j]), rules', prio')
    {
      FlatMapStep(SourceRulesOf(p, exits), sources, j);
      ghost var before, at := rules', prio';
      rules', prio' := AppendSourceRules(rules', prio', p, exits, sources[j]);
      AddedBoth(rules, prio, FlatMap(SourceRulesOf(p, exits), sources[..j]), before, at,
                SourceRules(p, exits, sources[j]), rules', prio');
    }
    FlatMapWhole(SourceRulesOf(p, exits), sources);
  }

  /** Every peer's rules, numbered by one counter that runs through all the loops. */
  method GeneratePeerRules(cfg: Config) returns (rules: seq<IpRule>)
    ensures rules == PeerRules(cfg)
  {
    hide FlatMap;
    hide Distinct;
    var exits := EnabledExitNodes(cfg);
    var prio := PEER_BASE;
    rules := [];
    FlatMapEmpty(PeerBlocks(exits), cfg.peers);
    for i := 0 to |cfg.peers|
      invariant Added([], PEER_BASE, FlatMap(PeerBlocks(exits), cfg.peers[..i]), rules, prio)
    {
      FlatMapStep(PeerBlocks(exits), cfg.peers, i);
      ghost var before, at := rules, prio;
      rules, prio := AppendPeerRules(rules, prio, cfg.peers[i], exits);
      AddedBoth([], PEER_BASE, FlatMap(PeerBlocks(exits), cfg.peers[..i]), before, at, PeerBlock(exits, cfg.peers[i]),
          rules, prio);
    }
    FlatMapWhole(PeerBlocks(exits), cfg.peers);
  }

  // ---------------------------------------------------------------- LAN bypass rules

  function LanRule(src: Prefix): Prefix -> seq<FamilyRule> {
    (dest: Prefix) => if dest.family == src.family
            then [FamilyRule(src.family, RuleBody(src, Some(dest), Lookup(MAIN_TABLE)))] else []
  }

  /** Host selectors carry no mask, so the CIDR parse of the program skips them. */
  function LanSource(lan: seq<Prefix>, src: Prefix): seq<FamilyRule> {
    if IsHost(src) then [] else FlatMap(LanRule(src), lan)
  }

  function LanSourceRules(lan: seq<Prefix>): Prefix -> seq<FamilyRule> {
    (src: Prefix) => LanSource(lan, src)
  }

  function LanPeer(lan: seq<Prefix>, p: Peer): seq<FamilyRule> {
    if p.enabled then FlatMap(LanSourceRules(lan), Sources(p)) else []
  }

  function LanPeerRules(lan: seq<Prefix>): Peer -> seq<FamilyRule> {
    (p: Peer) => LanPeer(lan, p)
  }

  function LanDeviceRule(lan: seq<Prefix>): DeviceRule -> seq<FamilyRule> {
    (d: DeviceRule) => if d.enabled && d.device.family == V4 then FlatMap(LanRule(HostPrefix(d.device)), lan) else []
  }

  function LanDevices(lan: seq<Prefix>, p: Peer): seq<FamilyRule> {
    if p.enabled then FlatMap(LanDeviceRule(lan), p.devices) else []
  }

  function LanDeviceRules(lan: seq<Prefix>): Peer -> seq<FamilyRule> {
    (p: Peer) => LanDevices(lan, p)
  }

  function LocalRules(cfg: Config, lan: seq<Prefix>): seq<IpRule> {
    Number(LOCAL_BASE, FlatMap(LanPeerRules(lan), cfg.peers) + FlatMap(LanDeviceRules(lan), cfg.peers))
  }

  // ---------------------------------------------------------------- VPN gateway rules

  predicate UsableGateway(gateways: map<string, Gateway>, id: string) {
    id in gateways && gateways[id].enabled && gateways[id].tableId != 0
  }

  /** The lookup and the reject that keeps the assignment from falling through. */
  function ThroughGateway(src: Prefix, table: nat): seq<FamilyRule> {
    [FamilyRule(src.family, RuleBody(src, None, Lookup(table))),
     FamilyRule(src.family, RuleBody(src, None, Prohibit))]
  }

  function GatewaySourceRules(table: nat): Prefix -> seq<FamilyRule> {
    (src: Prefix) => ThroughGateway(src, table)
  }

  function GatewayPeerRules(gateways: map<string, Gateway>): Peer -> seq<FamilyRule> {
    (p: Peer) => if p.enabled && p.vpnGatewayId != "" && UsableGateway(gateways, p.vpnGatewayId)
         then FlatMap(GatewaySourceRules(gateways[p.vpnGatewayId].tableId), Sources(p)) else []
  }

  function GatewayRules(cfg: Config): seq<IpRule> {
    Number(GATEWAY_BASE, FlatMap(GatewayPeerRules(GatewayInterfaces(cfg.gateways)), cfg.peers))
  }

  function DeviceRulesFor(gateways: map<string, Gateway>): DeviceRule -> seq<FamilyRule> {
    (d: DeviceRule) => if !d.enabled || d.device.family != V4 then []
         else
           var src := HostPrefix(d.device);
           if d.gatewayId == "" then [FamilyRule(V4, RuleBody(src, None, Lookup(MAIN_TABLE)))]
           else if !UsableGateway(gateways, d.gatewayId) then [FamilyRule(V4, RuleBody(src, None, Prohibit))]
           else ThroughGateway(src, gateways[d.gatewayId].tableId)
  }

  function DevicePeerRules(gateways: map<string, Gateway>): Peer -> seq<FamilyRule> {
    (p: Peer) => if p.enabled then FlatMap(DeviceRulesFor(gateways), p.devices) else []
  }

  function DeviceRules(cfg: Config): seq<IpRule> {
    Number(DEVICE_BASE, FlatMap(DevicePeerRules(GatewayInterfaces(cfg.gateways)), cfg.peers))
  }

  method AppendThroughGateway(rules: seq<IpRule>, prio: nat, src: Prefix, table: nat)
    returns (rules': seq<IpRule>, prio': nat)
    ensures Added(rules, prio, ThroughGateway(src, table), rules', prio')
  {
    rules', prio' := Emit(rules, prio, FamilyRule(src.family, RuleBody(src, None, Lookup(table))));
    rules', prio' := Emit(rules', prio', FamilyRule(src.family, RuleBody(src, None, Prohibit)));
  }

  method AppendGatewayPeer(rules: seq<IpRule>, prio: nat, p: Peer, gateways: map<string, Gateway>)
    returns (rules': seq<IpRule>, prio': nat)
    ensures Added(rules, prio, GatewayPeerRules(gateways)(p), rules', prio')
  {
    hide FlatMap;
    hide Distinct;
    hide Added;
    AddedNothing(rules, prio);
    rules', prio' := rules, prio;
    if !p.enabled || p.vpnGatewayId == "" || !UsableGateway(gateways, p.vpnGatewayId) {
      return;
    }
    var table := gateways[p.vpnGatewayId].tableId;
    var sources := PeerSources(p);
    FlatMapEmpty(GatewaySourceRules(table), sources);
    for j := 0 to |sources|
      invariant Added(rules, prio, FlatMap(GatewaySourceRules(table), sources[..j]), rules', prio')
    {
      FlatMapStep(GatewaySourceRules(table), sources, j);
      ghost var before, at := rules', prio';
      rules', prio' := AppendThroughGateway(rules', prio', sources[j], table);
      AddedBoth(rules, prio, FlatMap(GatewaySourceRules(table), sources[..j]), before, at,
                ThroughGateway(sources[j], table), rules', prio');
    }
    FlatMapWhole(GatewaySourceRules(table), sources);
  }

  /** Lookup and reject for every source of every peer assigned to a usable gateway. */
  method GenerateGatewayRules(cfg: Config) returns (rules: seq<IpRule>)
    ensures rules == GatewayRules(cfg)
  {
    hide FlatMap;
    hide Distinct;
    var gateways := GatewayInterfaces(cfg.gateways);
    var prio := GATEWAY_BASE;
    rules := [];
    FlatMapEmpty(GatewayPeerRules(gateways), cfg.peers);
    for i := 0 to |cfg.peers|
      invariant Added([], GATEWAY_BASE, FlatMap(GatewayPeerRules(gateways), cfg.peers[..i]), rules, prio)
    {
      FlatMapStep(GatewayPeerRules(gateways), cfg.peers, i);
      ghost var before, at := rules, prio;
      rules, prio := AppendGatewayPeer(rules, prio, cfg.peers[i], gateways);
      AddedBoth([], GATEWAY_BASE, FlatMap(GatewayPeerRules(gateways), cfg.peers[..i]), before, at,
                GatewayPeerRules(gateways)(cfg.peers[i]), rules, prio);
    }
    FlatMapWhole(GatewayPeerRules(gateways), cfg.peers);
  }

  /** One device: direct through main, failing closed, or through a gateway. */
  method AppendDevice(rules: seq<IpRule>, prio: nat, d: DeviceRule, gateways: map<string, Gateway>)
    returns (rules': seq<IpRule>, prio': nat)
    ensures Added(rules, prio, DeviceRulesFor(gateways)(d), rules', prio')
  {
    hide Added;
    AddedNothing(rules, prio);
    rules', prio' := rules, prio;
    if !d.enabled || d.device.family != V4 {
      return;
    }
    var src := HostPrefix(d.device);
    if d.gatewayId == "" {
      rules', prio' := Emit(rules', prio', FamilyRule(V4, RuleBody(src, None, Lookup(MAIN_TABLE))));
    } else if !UsableGateway(gateways, d.gatewayId) {
      rules', prio' := Emit(rules', prio', FamilyRule(V4, RuleBody(src, None, Prohibit)));
    } else {
      rules', prio' := AppendThroughGateway(rules', prio', src, gateways[d.gatewayId].tableId);
    }
  }

  method AppendDevicePeer(rules: seq<IpRule>, prio: nat, p: Peer, gateways: map<string, Gateway>)
    returns (rules': seq<IpRule>, prio': nat)
    ensures Added(rules, prio, DevicePeerRules(gateways)(p), rules', prio')
  {
    hide FlatMap;
    hide Distinct;
    hide Added;
    AddedNothing(rules, prio);
    rules', prio' := rules, prio;
    if !p.enabled {
      return;
    }
    FlatMapEmpty(DeviceRulesFor(gateways), p.devices);
    for j := 0 to |p.devices|
      invariant Added(rules, prio, FlatMap(DeviceRulesFor(gateways), p.devices[..j]), rules', prio')
    {
      FlatMapStep(DeviceRulesFor(gateways), p.devices, j);
      ghost var before, at := rules', prio';
      rules', prio' := AppendDevice(rules', prio', p.devices[j], gateways);
      AddedBoth(rules, prio, FlatMap(DeviceRulesFor(gateways), p.devices[..j]), before, at,
                DeviceRulesFor(gateways)(p.devices[j]), rules', prio');
    }
    FlatMapWhole(DeviceRulesFor(gateways), p.devices);
  }

  /** Every enabled device rule, in peer and device order. */
  method GenerateDeviceRules(cfg: Config) returns (rules: seq<IpRule>)
    ensures rules == DeviceRules(cfg)
  {
    hide FlatMap;
    hide Distinct;
    var gateways := GatewayInterfaces(cfg.gateways);
    var prio := DEVICE_BASE;
    rules := [];
    FlatMapEmpty(DevicePeerRules(gateways), cfg.peers);
    for i := 0 to |cfg.peers|
      invariant Added([], DEVICE_BASE, FlatMap(DevicePeerRules(gateways), cfg.peers[..i]), rules, prio)
    {
      FlatMapStep(DevicePeerRules(gateways), cfg.peers, i);
      ghost var before, at := rules, prio;
      rules, prio := AppendDevicePeer(rules, prio, cfg.peers[i], gateways);
      AddedBoth([], DEVICE_BASE, FlatMap(DevicePeerRules(gateways), cfg.peers[..i]), before, at,
                DevicePeerRules(gateways)(cfg.peers[i]), rules, prio);
    }
    FlatMapWhole(DevicePeerRules(gateways), cfg.peers);
  }

  /** The innermost LAN loop, over the destinations. */
  method AppendLanRules(rules: seq<IpRule>, prio: nat, src: Prefix, lan: seq<Prefix>)
    returns (rules': seq<IpRule>, prio': nat)
    ensures Added(rules, prio, FlatMap(LanRule(src), lan), rules', prio')
  {
    hide FlatMap;
    hide Distinct;
    hide Added;
    AddedNothing(rules, prio);
    rules', prio' := rules, prio;
    FlatMapEmpty(LanRule(src), lan);
    for n := 0 to |lan|
      invariant Added(rules, prio, FlatMap(LanRule(src), lan[..n]), rules', prio')
    {
      FlatMapStep(LanRule(src), lan, n);
      ghost var before, at := rules', prio';
      AddedNothing(before, at);
      if lan[n].family == src.family {
        rules', prio' := Emit(rules', prio', FamilyRule(src.family, RuleBody(src, Some(lan[n]), Lookup(MAIN_TABLE))));
      }
      AddedBoth(rules, prio, FlatMap(LanRule(src), lan[..n]), before, at, LanRule(src)(lan[n]), rules', prio');
    }
    FlatMapWhole(LanRule(src), lan);
  }

  method AppendLanSource(rules: seq<IpRule>, prio: nat, src: Prefix, lan: seq<Prefix>)
    returns (rules': seq<IpRule>, prio': nat)
    ensures Added(rules, prio, LanSource(lan, src), rules', prio')
  {
    AddedNothing(rules, prio);
    rules', prio' := rules, prio;
    if !IsHost(src) {
      rules', prio' := AppendLanRules(rules', prio', src, lan);
    }
  }

  method AppendLanPeer(rules: seq<IpRule>, prio: nat, p: Peer, lan: seq<Prefix>)
    returns (rules': seq<IpRule>, prio': nat)
    ensures Added(rules, prio, LanPeer(lan, p), rules', prio')
  {
    hide FlatMap;
    hide Distinct;
    hide Added;
    AddedNothing(rules, prio);
    rules', prio' := rules, prio;
    if !p.enabled {
      return;
    }
    var sources := PeerSources(p);
    FlatMapEmpty(LanSourceRules(lan), sources);
    for j := 0 to |sources|
      invariant Added(rules, prio, FlatMap(LanSourceRules(lan), sources[..j]), rules', prio')
    {
      FlatMapStep(LanSourceRules(lan), sources, j);
      ghost var before, at := rules', prio';
      rules', prio' := AppendLanSource(rules', prio', sources[j], lan);
      AddedBoth(rules, prio, FlatMap(LanSourceRules(lan), sources[..j]), before, at, LanSource(lan, sources[j]),
          rules', prio');
    }
    FlatMapWhole(LanSourceRules(lan), sources);
  }

  method AppendLanDevice(rules: seq<IpRule>, prio: nat, d: DeviceRule, lan: seq<Prefix>)
    returns (rules': seq<IpRule>, prio': nat)
    ensures Added(rules, prio, LanDeviceRule(lan)(d), rules', prio')
  {
    AddedNothing(rules, prio);
    rules', prio' := rules, prio;
    if d.enabled && d.device.family == V4 {
      rules', prio' := AppendLanRules(rules', prio', HostPrefix(d.device), lan);
    }
  }

  method AppendLanDevices(rules: seq<IpRule>, prio: nat, p: Peer, lan: seq<Prefix>)
    returns (rules': seq<IpRule>, prio': nat)
    ensures Added(rules, prio, LanDevices(lan, p), rules', prio')
  {
    hide FlatMap;
    hide Distinct;
    hide Added;
    AddedNothing(rules, prio);
    rules', prio' := rules, prio;
    if !p.enabled {
      return;
    }
    FlatMapEmpty(LanDeviceRule(lan), p.devices);
    for j := 0 to |p.devices|
      invariant Added(rules, prio, FlatMap(LanDeviceRule(lan), p.devices[..j]), rules', prio')
    {
      FlatMapStep(LanDeviceRule(lan), p.devices, j);
      ghost var before, at := rules', prio';
      rules', prio' := AppendLanDevice(rules', prio', p.devices[j], lan);
      AddedBoth(rules, prio, FlatMap(LanDeviceRule(lan), p.devices[..j]), before, at,
          LanDeviceRule(lan)(p.devices[j]), rules', prio');
    }
    FlatMapWhole(LanDeviceRule(lan), p.devices);
  }

  /** The loop over peers, then the loop over devices, with one counter for both. */
  method GenerateLocalRules(cfg: Config, lan: seq<Prefix>) returns (rules: seq<IpRule>)
    ensures rules == LocalRules(cfg, lan)
  {
    hide FlatMap;
    hide Distinct;
    var prio := LOCAL_BASE;
    rules := [];
    FlatMapEmpty(LanPeerRules(lan), cfg.peers);
    for i := 0 to |cfg.peers|
      invariant Added([], LOCAL_BASE, FlatMap(LanPeerRules(lan), cfg.peers[..i]), rules, prio)
    {
      FlatMapStep(LanPeerRules(lan), cfg.peers, i);
      ghost var before, at := rules, prio;
      rules, prio := AppendLanPeer(rules, prio, cfg.peers[i], lan);
      AddedBoth([], LOCAL_BASE, FlatMap(LanPeerRules(lan), cfg.peers[..i]), before, at, LanPeer(lan, cfg.peers[i]),
          rules, prio);
    }
    FlatMapWhole(LanPeerRules(lan), cfg.peers);
    ghost var peers, mid, split := FlatMap(LanPeerRules(lan), cfg.peers), rules, prio;
    FlatMapEmpty(LanDeviceRules(lan), cfg.peers);
    for i := 0 to |cfg.peers|
      invariant Added(mid, split, FlatMap(LanDeviceRules(lan), cfg.peers[..i]), rules, prio)
    {
      FlatMapStep(LanDeviceRules(lan), cfg.peers, i);
      ghost var before, at := rules, prio;
      rules, prio := AppendLanDevices(rules, prio, cfg.peers[i], lan);
      AddedBoth(mid, split, FlatMap(LanDeviceRules(lan), cfg.peers[..i]), before, at, LanDevices(lan, cfg.peers[i]),
          rules, prio);
    }
    FlatMapWhole(LanDeviceRules(lan), cfg.peers);
    AddedBoth([], LOCAL_BASE, peers, mid, split, FlatMap(LanDeviceRules(lan), cfg.peers), rules, prio);
  }

  function SetRules(xs: seq<IpRule>): (r: seq<Cmd>)
    ensures |r| == |xs| && forall i :: 0 <= i < |xs| ==> r[i] == SetRule(xs[i].slot, xs[i].body)
  {
    seq(|xs|, i requires 0 <= i < |xs| => SetRule(xs[i].slot, xs[i].body))
  }

  function DelRules(xs: seq<IpRule>): (r: seq<Cmd>)
    ensures |r| == |xs| && forall i :: 0 <= i < |xs| ==> r[i] == DelRule(xs[i].slot, xs[i].body)
  {
    seq(|xs|, i requires 0 <= i < |xs| => DelRule(xs[i].slot, xs[i].body))
  }
}
