/** What the command lists install, entry by entry: which sources may leave through which uplink, which
    routes a private table gets, and which sources a transition guards. */
module Contents {
  import opened Lists
  import opened Network
  import opened Models
  import opened Kernel
  import opened IpRules
  import opened StrictChains
  import opened GatewayChains
  import opened Routes
  import opened Convergence

  // ---------------------------------------------------------------- gateway chains

  /** An enabled peer with this IPv4 source may reach this IPv4 network on the LAN. */
  ghost predicate LanPair(cfg: Config, lan: seq<Prefix>, src: Prefix, dest: Prefix) {
    && src.family == V4 && dest.family == V4 && dest in lan
    && exists p :: p in cfg.peers && p.enabled && src in Sources(p)
  }

  /** Forwarding there and back, under the host's own address. */
  ghost predicate LanGrant(src: Prefix, dest: Prefix, c: Cmd) {
    || c == Append(GatewayChain(V4), FwRule(None, None, Some(src), Some(dest), false, false, Accept))
    || c == Append(GatewayNat, FwRule(None, None, Some(src), Some(dest), false, false, Masquerade))
    || c == Append(GatewayChain(V4), FwRule(None, None, None, Some(dest), true, false, Accept))
  }

  /** The interface of the enabled gateway with this ID. */
  ghost predicate Interface(cfg: Config, id: string, device: string) {
    var gateways := GatewayInterfaces(cfg.gateways);
    id != "" && id in gateways && gateways[id].enabled && device == gateways[id].iface
  }

  /** An enabled peer has this source, or a device entry for it, and is assigned to a gateway on this
      device. */
  ghost predicate Uplink(cfg: Config, src: Prefix, device: string) {
    || (exists p :: p in cfg.peers && p.enabled && src in Sources(p) && Interface(cfg, p.vpnGatewayId, device))
    || (exists p, d :: p in cfg.peers && p.enabled && d in p.devices && d.enabled && d.device.family == V4
                       && src == HostPrefix(d.device) && Interface(cfg, d.gatewayId, device))
  }

  /** Out through the device, replies back to the tunnel, and for IPv4 the address of the uplink. */
  ghost predicate UplinkGrant(src: Prefix, device: string, c: Cmd) {
    || c == Append(GatewayChain(src.family), FwRule(None, Some(device), Some(src), None, false, false, Accept))
    || c == Append(GatewayChain(src.family), FwRule(Some(device), Some("wg0"), None, Some(src), true, false, Accept))
    || (src.family == V4
       && c == Append(GatewayNat, FwRule(None, Some(device), Some(src), None, false, false, Masquerade)))
  }

  lemma LanMember(src: Prefix, dest: Prefix, c: Cmd)
    ensures c in LanAccess(src)(dest) <==> dest.family == V4 && LanGrant(src, dest, c)
  {
  }

  lemma LanSourceMember(lan: seq<Prefix>, src: Prefix, c: Cmd)
    ensures c in LanSourceAccess(lan)(src) <==>
              exists dest :: dest in lan && dest.family == V4 && src.family == V4 && LanGrant(src, dest, c)
  {
    hide FlatMap;
    hide LanAccess;
    hide LanGrant;
    InFlatMap(LanAccess(src), lan, c);
    forall dest
      ensures c in LanAccess(src)(dest) <==> dest.family == V4 && LanGrant(src, dest, c)
    {
      LanMember(src, dest, c);
    }
  }

  lemma LanPart(cfg: Config, lan: seq<Prefix>, c: Cmd)
    ensures c in FlatMap(LanPeerAccess(lan), cfg.peers) <==>
              exists src, dest :: LanPair(cfg, lan, src, dest) && LanGrant(src, dest, c)
  {
    hide FlatMap;
    hide Sources;
    hide LanSourceAccess;
    hide LanGrant;
    InFlatMap(LanPeerAccess(lan), cfg.peers, c);
    if p :| p in cfg.peers && c in LanPeerAccess(lan)(p) {
      InFlatMap(LanSourceAccess(lan), Sources(p), c);
      var src :| src in Sources(p) && c in LanSourceAccess(lan)(src);
      LanSourceMember(lan, src, c);
      var dest :| dest in lan && dest.family == V4 && src.family == V4 && LanGrant(src, dest, c);
      assert LanPair(cfg, lan, src, dest);
    }
    if src, dest :| LanPair(cfg, lan, src, dest) && LanGrant(src, dest, c) {
      var p :| p in cfg.peers && p.enabled && src in Sources(p);
      LanSourceMember(lan, src, c);
      InFlatMap(LanSourceAccess(lan), Sources(p), c);
      assert c in LanPeerAccess(lan)(p);
    }
  }

  lemma UplinkMember(device: string, src: Prefix, c: Cmd)
    ensures c in UplinkAccess(device)(src) <==> UplinkGrant(src, device, c)
  {
  }

  lemma Running(cfg: Config, id: string)
    ensures id != "" && RunningGateway(GatewayInterfaces(cfg.gateways), id) <==>
              exists device :: Interface(cfg, id, device)
    ensures forall device :: Interface(cfg, id, device) ==> device == GatewayInterfaces(cfg.gateways)[id].iface
  {
    GatewayInterfacesExact(cfg.gateways, id);
    hide GatewayInterfaces;
    if id != "" && RunningGateway(GatewayInterfaces(cfg.gateways), id) {
      assert Interface(cfg, id, GatewayInterfaces(cfg.gateways)[id].iface);
    }
  }

  lemma PeerPart(cfg: Config, c: Cmd)
    ensures c in FlatMap(UplinkPeerAccess(GatewayInterfaces(cfg.gateways)), cfg.peers) <==>
              exists p, src, device ::
                p in cfg.peers && p.enabled && src in Sources(p) && Interface(cfg, p.vpnGatewayId, device)
                && UplinkGrant(src, device, c)
  {
    hide FlatMap;
    hide Sources;
    hide GatewayInterfaces;
    hide UplinkGrant;
    hide Interface;
    var gateways := GatewayInterfaces(cfg.gateways);
    InFlatMap(UplinkPeerAccess(gateways), cfg.peers, c);
    if p :| p in cfg.peers && c in UplinkPeerAccess(gateways)(p) {
      Running(cfg, p.vpnGatewayId);
      var device :| Interface(cfg, p.vpnGatewayId, device);
      InFlatMap(UplinkAccess(device), Sources(p), c);
      var src :| src in Sources(p) && c in UplinkAccess(device)(src);
      UplinkMember(device, src, c);
    }
    if p, src, device :|
      p in cfg.peers && p.enabled && src in Sources(p) && Interface(cfg, p.vpnGatewayId, device)
      && UplinkGrant(src, device, c)
    {
      Running(cfg, p.vpnGatewayId);
      UplinkMember(device, src, c);
      InFlatMap(UplinkAccess(device), Sources(p), c);
      assert c in UplinkPeerAccess(gateways)(p);
    }
  }

  lemma DevicePart(cfg: Config, c: Cmd)
    ensures c in FlatMap(UplinkDeviceAccess(GatewayInterfaces(cfg.gateways)), cfg.peers) <==>
              exists p, d, device ::
                p in cfg.peers && p.enabled && d in p.devices && d.enabled && d.device.family == V4
                && Interface(cfg, d.gatewayId, device) && UplinkGrant(HostPrefix(d.device), device, c)
  {
    hide FlatMap;
    hide HostPrefix;
    hide GatewayInterfaces;
    hide UplinkGrant;
    hide Interface;
    var gateways := GatewayInterfaces(cfg.gateways);
    InFlatMap(UplinkDeviceAccess(gateways), cfg.peers, c);
    if p :| p in cfg.peers && c in UplinkDeviceAccess(gateways)(p) {
      InFlatMap(UplinkDevice(gateways), p.devices, c);
      var d :| d in p.devices && c in UplinkDeviceCmds(gateways, d);
      Running(cfg, d.gatewayId);
      var device :| Interface(cfg, d.gatewayId, device);
      UplinkMember(device, HostPrefix(d.device), c);
    }
    if p, d, device :|
      p in cfg.peers && p.enabled && d in p.devices && d.enabled && d.device.family == V4
      && Interface(cfg, d.gatewayId, device) && UplinkGrant(HostPrefix(d.device), device, c)
    {
      Running(cfg, d.gatewayId);
      UplinkMember(device, HostPrefix(d.device), c);
      InFlatMap(UplinkDevice(gateways), p.devices, c);
      assert c in UplinkDeviceAccess(gateways)(p);
    }
  }

  /** The gateway chains hold the LAN access of every enabled peer, and for every assignment of a peer or
      a device to an enabled gateway the way out, the way back and, for IPv4, the masquerade on that
      uplink; and nothing else. */
  lemma GatewayAppendsExact(cfg: Config, lan: seq<Prefix>, c: Cmd)
    ensures c in GatewayAppends(cfg, lan) <==>
              || (exists src, dest :: LanPair(cfg, lan, src, dest) && LanGrant(src, dest, c))
              || (exists src, device :: Uplink(cfg, src, device) && UplinkGrant(src, device, c))
  {
    hide FlatMap;
    hide Sources;
    hide HostPrefix;
    hide GatewayInterfaces;
    hide LanPair;
    hide LanGrant;
    hide UplinkGrant;
    hide Interface;
    LanPart(cfg, lan, c);
    PeerPart(cfg, c);
    DevicePart(cfg, c);
    if src, device :| Uplink(cfg, src, device) && UplinkGrant(src, device, c) {
      if p :| p in cfg.peers && p.enabled && src in Sources(p) && Interface(cfg, p.vpnGatewayId, device) {
      } else {
        var p, d :| p in cfg.peers && p.enabled && d in p.devices && d.enabled && d.device.family == V4
            && src == HostPrefix(d.device) && Interface(cfg, d.gatewayId, device);
      }
    }
  }

  /** The chains are flushed and then entered first thing: from FORWARD for what comes out of the tunnel,
      from POSTROUTING for everything. */
  lemma GatewayInitExact(f: Family)
    ensures var jump := FwRule(Some("wg0"), None, None, None, false, false, Jump(GatewayChain(f)));
            FlushChain(GatewayChain(f), false) in GATEWAY_INIT && EnsureFirst(Forward(f), jump) in GATEWAY_INIT
    ensures var jump := FwRule(None, None, None, None, false, false, Jump(GatewayNat));
            FlushChain(GatewayNat, false) in GATEWAY_INIT && EnsureFirst(Postrouting, jump) in GATEWAY_INIT
  {
    assert GATEWAY_INIT[1] == FlushChain(GatewayChain(V4), false)
        && GATEWAY_INIT[7] == FlushChain(GatewayChain(V6), false);
    assert GATEWAY_INIT[2] == EnsureFirst(Forward(V4), GatewayJump(V4));
    assert GATEWAY_INIT[8] == EnsureFirst(Forward(V6), GatewayJump(V6));
    assert GATEWAY_INIT[4] == FlushChain(GatewayNat, false) && GATEWAY_INIT[5] == EnsureFirst(Postrouting, NAT_JUMP);
  }

  // ---------------------------------------------------------------- ZeroTier NAT

  /** Packets from this prefix towards ZeroTier are accepted before any masquerade. */
  function ExemptFirst(p: Prefix): Cmd {
    EnsureFirst(Postrouting, FwRule(None, Some("zt+"), Some(p), None, false, false, Accept))
  }

  /** ZeroTier's masquerade is installed exactly if it is enabled and not switched off, at the end; the
      advertised prefixes are exempted in front of it if asked for. */
  lemma ZeroTierUpExact(inp: Inputs, c: Cmd)
    ensures c in ZeroTierUp(inp) <==>
              && inp.cfg.zeroTier.enabled && !inp.cfg.zeroTier.disableMasquerade
              && (|| c == EnsureLast(Postrouting, FwRule(None, Some("zt+"), None, None, false, false, Masquerade))
                  || (inp.cfg.zeroTier.excludeAdvertised
                      && exists p :: p in inp.bypass && c == ExemptFirst(p)))
  {
    var specs := BypassSpecs(inp);
    if p :| p in inp.bypass && c == ExemptFirst(p) {
      var i :| 0 <= i < |inp.bypass| && inp.bypass[i] == p;
      if inp.cfg.zeroTier.excludeAdvertised {
        assert specs[i] == BypassRule(p) && EnsureAllFirst(specs)[i] == c;
        assert c in EnsureAllFirst(specs);
      }
    }
    if c in EnsureAllFirst(specs) {
      var i :| 0 <= i < |specs| && EnsureAllFirst(specs)[i] == c;
      assert specs[i] in specs;
      var p :| p in inp.bypass && specs[i] == BypassRule(p);
      assert c == ExemptFirst(p);
    }
  }

  // ---------------------------------------------------------------- routes

  /** The gateway has an interface and a table, and asks for the default route of a family. */
  ghost predicate AsksDefault(cfg: Config, g: Gateway, f: Family) {
    g in cfg.gateways && g.iface != "" && g.tableId != 0 && Prefix(f, 0, 0) in g.allowedIPs
  }

  /** Each such gateway gets that route, out of its own interface and in its own table; a deletion names
      the same route and device. */
  lemma GatewayRoutesExact(cfg: Config, c: Cmd)
    ensures c in GatewayRouteCmds(Replace, cfg) <==>
              exists g, f :: AsksDefault(cfg, g, f)
                             && c == ReplaceRoute(RouteKey(g.tableId, Prefix(f, 0, 0)), Hop(g.iface, None), true)
    ensures c in GatewayRouteCmds(Delete, cfg) <==>
              exists g, f ::
                AsksDefault(cfg, g, f) && c == DelRoute(RouteKey(g.tableId, Prefix(f, 0, 0)), Some(g.iface))
  {
    hide FlatMap;
    InFlatMap(GatewayRoutesOf(Replace), cfg.gateways, c);
    InFlatMap(GatewayRoutesOf(Delete), cfg.gateways, c);
    hide GatewayRoutesOf;
    hide AsksDefault;
    forall g
      ensures c in GatewayRoutesOf(Replace)(g) && g in cfg.gateways <==>
                exists f :: AsksDefault(cfg, g, f)
                            && c == ReplaceRoute(RouteKey(g.tableId, Prefix(f, 0, 0)), Hop(g.iface, None), true)
      ensures c in GatewayRoutesOf(Delete)(g) && g in cfg.gateways <==>
                exists f :: AsksDefault(cfg, g, f) && c == DelRoute(RouteKey(g.tableId, Prefix(f, 0, 0)), Some(g.iface))
    {
      GatewayRouteOf(cfg, g, c);
    }
  }

  lemma GatewayRouteOf(cfg: Config, g: Gateway, c: Cmd)
    ensures c in GatewayRoutesOf(Replace)(g) && g in cfg.gateways <==>
              exists f :: AsksDefault(cfg, g, f)
                          && c == ReplaceRoute(RouteKey(g.tableId, Prefix(f, 0, 0)), Hop(g.iface, None), true)
    ensures c in GatewayRoutesOf(Delete)(g) && g in cfg.gateways <==>
              exists f :: AsksDefault(cfg, g, f) && c == DelRoute(RouteKey(g.tableId, Prefix(f, 0, 0)), Some(g.iface))
  {
    DefaultOf(cfg, g, V4, c);
    DefaultOf(cfg, g, V6, c);
    var routes, deletions := GatewayRoutesOf(Replace)(g), GatewayRoutesOf(Delete)(g);
    if g in cfg.gateways && g.iface != "" && g.tableId != 0 {
      assert routes == GatewayRouteCmd(Replace, g, V4) + GatewayRouteCmd(Replace, g, V6);
      assert deletions == GatewayRouteCmd(Delete, g, V4) + GatewayRouteCmd(Delete, g, V6);
    }
    if f :|
      AsksDefault(cfg, g, f) && c == ReplaceRoute(RouteKey(g.tableId, Prefix(f, 0, 0)), Hop(g.iface, None), true)
    {
      assert f == V4 || f == V6;
    }
    if f :| AsksDefault(cfg, g, f) && c == DelRoute(RouteKey(g.tableId, Prefix(f, 0, 0)), Some(g.iface)) {
      assert f == V4 || f == V6;
    }
  }

  lemma DefaultOf(cfg: Config, g: Gateway, f: Family, c: Cmd)
    ensures g in cfg.gateways && g.iface != "" && g.tableId != 0 ==>
              && (c in GatewayRouteCmd(Replace, g, f) <==>
                    AsksDefault(cfg, g, f)
                        && c == ReplaceRoute(RouteKey(g.tableId, Prefix(f, 0, 0)), Hop(g.iface, None), true))
              && (c in GatewayRouteCmd(Delete, g, f) <==>
                    AsksDefault(cfg, g, f) && c == DelRoute(RouteKey(g.tableId, Prefix(f, 0, 0)), Some(g.iface)))
  {
  }

  /** An exit node takes everything of both families, or the destinations it lists. */
  ghost predicate Takes(exit: Peer, dest: Prefix) {
    if exit.exitAllowAll then dest == Prefix(V4, 0, 0) || dest == Prefix(V6, 0, 0) else dest in exit.exitRoutes
  }

  lemma ExitMember(verb: RouteVerb, inp: Inputs, c: Cmd)
    requires Valid(inp)
    ensures c in ExitRouteCmds(verb, inp.exitOrder) <==>
              exists p, d :: p in ExitNodes(inp.cfg.peers).Values && Takes(p, d) && c in ExitCmd(verb, p.tableId)(d)
  {
    ExitCmdMember(verb, inp, c);
    hide Valid;
    hide ExitRouteCmds;
    hide ExitNodes;
    hide ExitCmd;
    forall p, d
      ensures d in ExitPrefixes(p) <==> Takes(p, d)
    {
      TakenPrefixes(p, d);
    }
    hide ExitPrefixes;
    hide Takes;
  }

  /** Each exit node's table leads what it takes to the tunnel. */
  lemma ExitRoutesExact(inp: Inputs, c: Cmd)
    requires Valid(inp)
    ensures c in ExitRouteCmds(Replace, inp.exitOrder) <==>
              exists p, d :: p in ExitNodes(inp.cfg.peers).Values && Takes(p, d)
                             && c == ReplaceRoute(RouteKey(p.tableId, d), Hop("wg0", None), false)
    ensures c in ExitRouteCmds(Delete, inp.exitOrder) <==>
              exists p, d :: p in ExitNodes(inp.cfg.peers).Values && Takes(p, d)
                             && c == DelRoute(RouteKey(p.tableId, d), Some("wg0"))
  {
    hide Valid;
    hide ExitRouteCmds;
    hide ExitNodes;
    hide Takes;
    ExitMember(Replace, inp, c);
    ExitMember(Delete, inp, c);
  }

  lemma TakenPrefixes(p: Peer, d: Prefix)
    ensures d in ExitPrefixes(p) <==> Takes(p, d)
  {
  }

  /** An enabled peer with a policy table has this policy route. */
  ghost predicate HasPolicy(cfg: Config, p: Peer, r: PolicyRoute) {
    p in cfg.peers && p.enabled && p.policyTableId != 0 && p.allowedIPs != [] && r in p.policyRoutes
  }

  /** A policy route is installed over the device its gateway resolves to; over wg0 if it does not
      resolve and the peer is not strict; and not at all if the peer is strict. */
  lemma PolicyRoutesExact(inp: Inputs, c: Cmd)
    ensures c in PolicyRouteCmds(Replace, inp) <==>
              exists p, r :: HasPolicy(inp.cfg, p, r) && PolicyHop(p, r, inp.nets).Some?
                && c == ReplaceRoute(RouteKey(p.policyTableId, r.dest), PolicyHop(p, r, inp.nets).value, true)
    ensures c in PolicyRouteCmds(Delete, inp) <==>
              exists p, r :: HasPolicy(inp.cfg, p, r) && c == DelRoute(RouteKey(p.policyTableId, r.dest), None)
  {
    hide FlatMap;
    hide Resolve;
    var nets := inp.nets;
    InFlatMap(PolicyPeerCmds(Replace, nets), inp.cfg.peers, c);
    InFlatMap(PolicyPeerCmds(Delete, nets), inp.cfg.peers, c);
    forall p | p in inp.cfg.peers
      ensures c in PolicyPeerCmds(Replace, nets)(p) <==>
                exists r :: HasPolicy(inp.cfg, p, r) && PolicyHop(p, r, nets).Some?
                            && c == ReplaceRoute(RouteKey(p.policyTableId, r.dest), PolicyHop(p, r, nets).value, true)
      ensures c in PolicyPeerCmds(Delete, nets)(p) <==>
                exists r :: HasPolicy(inp.cfg, p, r) && c == DelRoute(RouteKey(p.policyTableId, r.dest), None)
    {
      InFlatMap(PolicyCmd(Replace, p, nets), p.policyRoutes, c);
      InFlatMap(PolicyCmd(Delete, p, nets), p.policyRoutes, c);
    }
  }

  ghost function PolicyHop(p: Peer, r: PolicyRoute, nets: seq<GatewayNet>): Option<Hop> {
    match Resolve(r.gateway, nets)
    case Resolved(d) => if d != "" then Some(Hop(d, Some(r.gateway))) else Fallback(p, r)
    case _ => Fallback(p, r)
  }

  ghost function Fallback(p: Peer, r: PolicyRoute): Option<Hop> {
    if p.strict then None else Some(Hop("wg0", Some(r.gateway)))
  }

  // ---------------------------------------------------------------- guarded sources

  /** The sources a transition guards, each once: those of the peers that are enabled and strict before
      it or after it. */
  lemma AffectedExact(prev: Config, next: Config, s: Prefix)
    ensures NoDuplicates(Affected(prev, next))
    ensures s in Affected(prev, next) <==>
              exists p :: (p in prev.peers || p in next.peers) && p.enabled && p.strict && s in Sources(p)
  {
    StrictExact(prev, s);
    StrictExact(next, s);
    DistinctElements(StrictSources(prev) + StrictSources(next));
    hide Distinct;
    hide StrictSources;
    hide Sources;
  }

  lemma StrictExact(cfg: Config, s: Prefix)
    ensures s in StrictSources(cfg) <==> exists p :: p in cfg.peers && p.enabled && p.strict && s in Sources(p)
  {
    hide FlatMap;
    hide Sources;
    DistinctElements(FlatMap(StrictSourcesOf(), cfg.peers));
    InFlatMap(StrictSourcesOf(), cfg.peers, s);
    hide Distinct;
  }
}
