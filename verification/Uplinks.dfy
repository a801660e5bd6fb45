/** Assignments fail closed: traffic assigned to a VPN gateway, of a whole peer or of one device, is
    decided before the rules of the kernel itself, and sees the main table only where a LAN bypass or
    a device entry for the same address says so. */
module Uplinks {
  import opened Lists
  import opened Network
  import opened Models
  import opened Kernel
  import opened IpRules
  import opened Generators
  import opened Effects
  import opened Convergence
  import opened Confinement
  import opened Tables

  /** The priority of the kernel's own rule for the main table. */
  const MAIN_PRIORITY: nat := 32766

  // ---------------------------------------------------------------- who decides

  /** A decision is made by a matching rule of its slot, which looked up the table. */
  ghost predicate MadeBy(d: Decision, bodies: seq<RuleBody>, p: Packet) {
    exists b :: b in bodies && BodyMatches(b, p) && (d.Routed? ==> b.action == Lookup(d.table))
  }

  ghost predicate DecidedAt(d: Decision, n: nat) {
    !d.NoRule? && d.priority == n
  }

  lemma {:induction false} SlotDecider(k: Kernel, n: nat, bodies: seq<RuleBody>, p: Packet)
    ensures var d := SlotDecision(k, n, bodies, p); d.NoRule? || (DecidedAt(d, n) && MadeBy(d, bodies, p))
    ensures (exists b :: b in bodies && b.action.Prohibit? && BodyMatches(b, p)) ==>
            !SlotDecision(k, n, bodies, p).NoRule?
    decreases |bodies|
  {
    hide BodyMatches;
    hide TableLookup;
    if bodies != [] {
      SlotDecider(k, n, bodies[1..], p);
      assert bodies == [bodies[0]] + bodies[1..];
    }
  }

  /** Evaluation from m on ends no later than at a slot that does not let the packet pass. */
  lemma {:induction false} DecidedBy(k: Kernel, p: Packet, m: nat, last: nat)
    requires m <= last <= LAST_PRIORITY && !SlotDecision(k, last, At(k.rules, Slot(p.src.family, last)), p).NoRule?
    ensures var d := Decide(k, p, m);
            && !d.NoRule? && m <= d.priority <= last
            && MadeBy(d, At(k.rules, Slot(p.src.family, d.priority)), p)
    decreases last - m
  {
    SlotDecider(k, m, At(k.rules, Slot(p.src.family, m)), p);
    hide SlotDecision;
    hide MadeBy;
    if m < last && SlotDecision(k, m, At(k.rules, Slot(p.src.family, m)), p).NoRule? {
      DecidedBy(k, p, m + 1, last);
    }
  }

  // ---------------------------------------------------------------- which rules look up main

  /** The kernel holds a configuration, and foreign rules stand only before or after its blocks. */
  ghost predicate Settled(k: Kernel, inp: Inputs, rules: map<Slot, seq<RuleBody>>) {
    && WithinGaps(inp) && |GatewayRules(inp.cfg)| <= MAIN_PRIORITY - GATEWAY_BASE
    && k.rules == rules + RuleState(inp) && rules.Keys !! Slots(AllRules(inp))
    && forall s :: s in rules ==> s.priority == 0 || s.priority >= MAIN_PRIORITY
  }

  /** No peer and no gateway has one of the kernel's own tables. */
  ghost predicate OwnTables(cfg: Config) {
    NoReservedTables(cfg) && forall g :: g in cfg.gateways ==> !Reserved(g.tableId)
  }

  /** When a peer can come by one of those tables: the allocator hands one out exactly if every ID
      below them is taken and not all three of them are. */
  lemma ReservedTableAssigned(peers: seq<Peer>)
    ensures Reserved(NextTable(peers)) <==>
              (forall j :: PEER_TABLE_BASE <= j < 253 ==>
                  j in PeerTables(peers)) && !({253, 254, 255} <= PeerTables(peers))
  {
    hide PeerTables;
    var used, id := PeerTables(peers), NextTable(peers);
    if id > 255 {
      assert 253 in used && 254 in used && 255 in used;
    } else if id < 253 {
      assert id !in used;
    }
  }

  /** The destination is one the LAN bypass names. */
  ghost predicate ToLan(inp: Inputs, p: Packet) {
    exists dest :: dest in inp.lan && Contains(dest, p.dst)
  }

  /** Some enabled device entry sends this address out directly. */
  ghost predicate DirectDevice(cfg: Config, a: Address) {
    exists q, e :: q in cfg.peers && q.enabled && e in q.devices && e.enabled && e.gatewayId == "" && e.device == a
  }

  lemma HostOnly(a: Address, b: Address)
    requires Contains(HostPrefix(a), b)
    ensures a == b
  {
  }

  lemma {:induction false} InterfaceSound(gateways: seq<Gateway>)
    ensures forall id :: id in GatewayInterfaces(gateways) ==> GatewayInterfaces(gateways)[id] in gateways
  {
    if gateways != [] {
      InterfaceSound(gateways[..|gateways| - 1]);
      assert gateways == gateways[..|gateways| - 1] + [gateways[|gateways| - 1]];
    }
  }

  lemma LanRuleOrigin(src: Prefix, lan: seq<Prefix>, b: FamilyRule)
    requires b in FlatMap(LanRule(src), lan)
    ensures exists dest :: dest in lan && b.body.dst == Some(dest)
  {
    InFlatMap(LanRule(src), lan, b);
  }

  lemma LocalOrigin(cfg: Config, lan: seq<Prefix>, x: IpRule)
    requires x in LocalRules(cfg, lan)
    ensures exists dest :: dest in lan && x.body.dst == Some(dest)
  {
    hide FlatMap;
    hide Distinct;
    var peers, devices := FlatMap(LanPeerRules(lan), cfg.peers), FlatMap(LanDeviceRules(lan), cfg.peers);
    var i :| 0 <= i < |LocalRules(cfg, lan)| && LocalRules(cfg, lan)[i] == x;
    var b := (peers + devices)[i];
    if b in peers {
      InFlatMap(LanPeerRules(lan), cfg.peers, b);
      var q :| q in cfg.peers && b in LanPeerRules(lan)(q);
      InFlatMap(LanSourceRules(lan), Sources(q), b);
      var s :| s in Sources(q) && b in LanSourceRules(lan)(s);
      LanRuleOrigin(s, lan, b);
    } else {
      InFlatMap(LanDeviceRules(lan), cfg.peers, b);
      var q :| q in cfg.peers && b in LanDeviceRules(lan)(q);
      InFlatMap(LanDeviceRule(lan), q.devices, b);
      var e :| e in q.devices && b in LanDeviceRule(lan)(e);
      LanRuleOrigin(HostPrefix(e.device), lan, b);
    }
  }

  /** A device rule selects its own address alone; it looks up main only for a direct device. */
  lemma DeviceOrigin(cfg: Config, x: IpRule, p: Packet)
    requires OwnTables(cfg) && x in DeviceRules(cfg) && BodyMatches(x.body, p) && x.body.action == Lookup(MAIN_TABLE)
    ensures DirectDevice(cfg, p.src)
  {
    var gateways := GatewayInterfaces(cfg.gateways);
    InterfaceSound(cfg.gateways);
    hide FlatMap;
    hide GatewayInterfaces;
    hide NoReservedTables;
    var i :| 0 <= i < |DeviceRules(cfg)| && DeviceRules(cfg)[i] == x;
    var b := FlatMap(DevicePeerRules(gateways), cfg.peers)[i];
    InFlatMap(DevicePeerRules(gateways), cfg.peers, b);
    var q :| q in cfg.peers && b in DevicePeerRules(gateways)(q);
    InFlatMap(DeviceRulesFor(gateways), q.devices, b);
    var e :| e in q.devices && b in DeviceRulesFor(gateways)(e);
    HostOnly(e.device, p.src);
  }

  lemma GatewayOrigin(cfg: Config, x: IpRule)
    requires OwnTables(cfg) && x in GatewayRules(cfg)
    ensures x.body.action != Lookup(MAIN_TABLE)
  {
    var gateways := GatewayInterfaces(cfg.gateways);
    InterfaceSound(cfg.gateways);
    hide FlatMap;
    hide Distinct;
    hide GatewayInterfaces;
    hide NoReservedTables;
    var i :| 0 <= i < |GatewayRules(cfg)| && GatewayRules(cfg)[i] == x;
    var b := FlatMap(GatewayPeerRules(gateways), cfg.peers)[i];
    InFlatMap(GatewayPeerRules(gateways), cfg.peers, b);
    var q :| q in cfg.peers && b in GatewayPeerRules(gateways)(q);
    InFlatMap(GatewaySourceRules(gateways[q.vpnGatewayId].tableId), Sources(q), b);
  }

  lemma PeerOrigin(cfg: Config, x: IpRule)
    requires OwnTables(cfg) && x in PeerRules(cfg)
    ensures x.body.action != Lookup(MAIN_TABLE)
  {
    hide PeerRuleBodies;
    var i :| 0 <= i < |PeerRules(cfg)| && PeerRules(cfg)[i] == x;
    PeerRuleShape(cfg, PeerRuleBodies(cfg)[i]);
  }

  /** A rule below main that looks up main is a LAN bypass or a direct device. */
  lemma MainOrigin(inp: Inputs, x: IpRule, p: Packet)
    requires OwnTables(inp.cfg) && x in AllRules(inp) && BodyMatches(x.body, p) && x.body.action == Lookup(MAIN_TABLE)
    ensures (x.slot.priority >= LOCAL_BASE && ToLan(inp, p)) || DirectDevice(inp.cfg, p.src)
  {
    hide PeerRules;
    hide DeviceRules;
    hide GatewayRules;
    hide OwnTables;
    if x in PeerRules(inp.cfg) {
      PeerOrigin(inp.cfg, x);
    } else if x in GatewayRules(inp.cfg) {
      GatewayOrigin(inp.cfg, x);
    } else if x in DeviceRules(inp.cfg) {
      DeviceOrigin(inp.cfg, x, p);
    } else {
      LocalOrigin(inp.cfg, inp.lan, x);
      var i :| 0 <= i < |LocalRules(inp.cfg, inp.lan)| && LocalRules(inp.cfg, inp.lan)[i] == x;
    }
  }

  /** The only rule at a slot of the application is its own. */
  lemma Owner(k: Kernel, inp: Inputs, rules: map<Slot, seq<RuleBody>>, s: Slot)
    requires Settled(k, inp, rules) && 1 <= s.priority < MAIN_PRIORITY && At(k.rules, s) != []
    ensures exists x :: x in AllRules(inp) && x.slot == s && At(k.rules, s) == [x.body]
  {
    AllSlotsDistinct(inp);
    RuleMapAt(AllRules(inp));
    hide AllRules;
    hide RuleMap;
    hide WithinGaps;
    hide GatewayRules;
    assert s in RuleState(inp);
    var x :| x in AllRules(inp) && x.slot == s;
    var i :| 0 <= i < |AllRules(inp)| && AllRules(inp)[i] == x;
    assert AllRules(inp)[i].slot in RuleMap(AllRules(inp));
  }

  lemma Placed(k: Kernel, inp: Inputs, rules: map<Slot, seq<RuleBody>>, x: IpRule)
    requires Settled(k, inp, rules) && x in AllRules(inp)
    ensures At(k.rules, x.slot) == [x.body]
  {
    AllSlotsDistinct(inp);
    RuleMapAt(AllRules(inp));
    hide AllRules;
    hide RuleMap;
    hide WithinGaps;
    hide GatewayRules;
    var i :| 0 <= i < |AllRules(inp)| && AllRules(inp)[i] == x;
    assert AllRules(inp)[i].slot in RuleMap(AllRules(inp));
  }

  /** What a matching reject at priority n means for a packet: it is decided there at the latest, and
      by main only on its way to the LAN or for a direct device. */
  lemma RejectBounds(k: Kernel, inp: Inputs, rules: map<Slot, seq<RuleBody>>, x: IpRule, p: Packet)
    requires Settled(k, inp, rules) && OwnTables(inp.cfg) && x in AllRules(inp)
    requires x.slot.family == p.src.family && 1 <= x.slot.priority < MAIN_PRIORITY
    requires x.body.action.Prohibit? && BodyMatches(x.body, p)
    ensures var d := Decide(k, p, 1);
            && !d.NoRule? && 1 <= d.priority <= x.slot.priority
            && (d.Routed? && d.table == MAIN_TABLE ==>
                  (d.priority >= LOCAL_BASE && ToLan(inp, p)) || DirectDevice(inp.cfg, p.src))
  {
    hide Settled;
    hide AllRules;
    hide Decide;
    hide SlotDecision;
    hide BodyMatches;
    hide OwnTables;
    hide ToLan;
    hide DirectDevice;
    Placed(k, inp, rules, x);
    SlotDecider(k, x.slot.priority, At(k.rules, x.slot), p);
    assert x.body in At(k.rules, x.slot);
    assert Slot(p.src.family, x.slot.priority) == x.slot;
    DecidedBy(k, p, 1, x.slot.priority);
    var d := Decide(k, p, 1);
    var slot := Slot(p.src.family, d.priority);
    Owner(k, inp, rules, slot);
    var y :| y in AllRules(inp) && y.slot == slot && At(k.rules, slot) == [y.body];
    if d.Routed? && d.table == MAIN_TABLE {
      MainOrigin(inp, y, p);
    }
  }

  // ---------------------------------------------------------------- the assignments

  lemma GatewayReject(cfg: Config, peer: Peer, s: Prefix) returns (x: IpRule)
    requires peer in cfg.peers && peer.enabled && peer.vpnGatewayId != "" && s in Sources(peer)
    requires UsableGateway(GatewayInterfaces(cfg.gateways), peer.vpnGatewayId)
    ensures x in GatewayRules(cfg) && x.slot.family == s.family && x.body == RuleBody(s, None, Prohibit)
    ensures GATEWAY_BASE <= x.slot.priority < GATEWAY_BASE + |GatewayRules(cfg)|
  {
    hide FlatMap;
    hide Distinct;
    hide GatewayInterfaces;
    var gateways := GatewayInterfaces(cfg.gateways);
    var table := gateways[peer.vpnGatewayId].tableId;
    var b := FamilyRule(s.family, RuleBody(s, None, Prohibit));
    assert b in GatewaySourceRules(table)(s);
    InFlatMap(GatewaySourceRules(table), Sources(peer), b);
    assert b in GatewayPeerRules(gateways)(peer);
    InFlatMap(GatewayPeerRules(gateways), cfg.peers, b);
    var all := FlatMap(GatewayPeerRules(gateways), cfg.peers);
    var i :| 0 <= i < |all| && all[i] == b;
    x := GatewayRules(cfg)[i];
  }

  /** A peer assigned to a usable VPN gateway: its packets are decided before the kernel's own rules,
      never left without a rule, and see the main table only towards the LAN or where a device entry
      for the same address asks for it. */
  lemma AssignedPeer(k: Kernel, inp: Inputs, rules: map<Slot, seq<RuleBody>>, peer: Peer, p: Packet)
    requires Settled(k, inp, rules) && OwnTables(inp.cfg)
    requires peer in inp.cfg.peers && peer.enabled && FromPeer(peer, p)
    requires peer.vpnGatewayId != "" && UsableGateway(GatewayInterfaces(inp.cfg.gateways), peer.vpnGatewayId)
    ensures var d := Decide(k, p, 1);
            && !d.NoRule? && 1 <= d.priority < MAIN_PRIORITY
            && (d.Routed? && d.table == MAIN_TABLE ==> ToLan(inp, p) || DirectDevice(inp.cfg, p.src))
  {
    hide Decide;
    hide GatewayRules;
    hide GatewayInterfaces;
    hide OwnTables;
    hide WithinGaps;
    hide RuleState;
    hide PeerRules;
    var s :| s in Sources(peer) && Contains(s, p.src);
    var x := GatewayReject(inp.cfg, peer, s);
    assert x in AllRules(inp);
    RejectBounds(k, inp, rules, x, p);
  }

  lemma DeviceReject(cfg: Config, peer: Peer, d: DeviceRule) returns (x: IpRule)
    requires peer in cfg.peers && peer.enabled && d in peer.devices && d.enabled && d.device.family == V4
             && d.gatewayId != ""
    ensures x in DeviceRules(cfg) && x.slot.family == V4 && x.body == RuleBody(HostPrefix(d.device), None, Prohibit)
    ensures DEVICE_BASE <= x.slot.priority < DEVICE_BASE + |DeviceRules(cfg)|
  {
    hide FlatMap;
    hide GatewayInterfaces;
    var gateways := GatewayInterfaces(cfg.gateways);
    var b := FamilyRule(V4, RuleBody(HostPrefix(d.device), None, Prohibit));
    assert b in DeviceRulesFor(gateways)(d);
    InFlatMap(DeviceRulesFor(gateways), peer.devices, b);
    assert b in DevicePeerRules(gateways)(peer);
    InFlatMap(DevicePeerRules(gateways), cfg.peers, b);
    var all := FlatMap(DevicePeerRules(gateways), cfg.peers);
    var i :| 0 <= i < |all| && all[i] == b;
    x := DeviceRules(cfg)[i];
  }

  /** A device assigned to a gateway, usable or not: its packets are decided before the LAN bypass, and
      see the main table only if another entry for the same address is direct. */
  lemma AssignedDevice(k: Kernel, inp: Inputs, rules: map<Slot, seq<RuleBody>>, peer: Peer, d: DeviceRule, p: Packet)
    requires Settled(k, inp, rules) && OwnTables(inp.cfg)
    requires peer in inp.cfg.peers && peer.enabled && d in peer.devices && d.enabled && d.gatewayId != ""
    requires d.device.family == V4 && p.src == d.device
    ensures var r := Decide(k, p, 1);
            && !r.NoRule? && 1 <= r.priority < LOCAL_BASE
            && (r.Routed? && r.table == MAIN_TABLE ==> DirectDevice(inp.cfg, p.src))
  {
    hide Decide;
    hide DeviceRules;
    hide GatewayRules;
    hide GatewayInterfaces;
    hide OwnTables;
    hide RuleState;
    hide PeerRules;
    hide LocalRules;
    var x := DeviceReject(inp.cfg, peer, d);
    assert x in AllRules(inp);
    RejectBounds(k, inp, rules, x, p);
  }
}
