/** The routes in private tables: exit nodes, gateways and policy routes. */
module Routes {
  import opened Lists
  import opened Network
  import opened Models
  import opened Kernel

  // ---------------------------------------------------------------- routes

  datatype RouteVerb = Replace | Delete

  const WG_HOP: Hop := Hop(WG_DEVICE, None)

  function ExitPrefixes(p: Peer): seq<Prefix> {
    if p.exitAllowAll then [DefaultRoute(V4), DefaultRoute(V6)] else p.exitRoutes
  }

  function ExitCmd(verb: RouteVerb, table: nat): Prefix -> seq<Cmd> {
    (dest: Prefix) => if verb == Replace then [ReplaceRoute(RouteKey(table, dest), WG_HOP, false)]
            else [DelRoute(RouteKey(table, dest), Some(WG_DEVICE))]
  }

  function ExitCmds(verb: RouteVerb): Peer -> seq<Cmd> {
    (p: Peer) => FlatMap(ExitCmd(verb, p.tableId), ExitPrefixes(p))
  }

  /** Exit nodes whose table no earlier one in the iteration has used. */
  function FirstPerTable(order: seq<Peer>): seq<Peer> {
    if order == [] then []
    else
      var init, last := order[..|order| - 1], order[|order| - 1];
      if exists q | q in init :: q.tableId == last.tableId then FirstPerTable(init)
      else FirstPerTable(init) + [last]
  }

  function ExitRouteCmds(verb: RouteVerb, order: seq<Peer>): seq<Cmd> {
    FlatMap(ExitCmds(verb), FirstPerTable(order))
  }

  lemma ExitRouteStep(verb: RouteVerb, order: seq<Peer>, i: nat)
    requires i < |order|
    ensures var before := order[..i];
            ExitRouteCmds(verb, order[..i + 1]) ==
              if exists q :: q in before && q.tableId == order[i].tableId then ExitRouteCmds(verb, before)
              else ExitRouteCmds(verb, before) + ExitCmds(verb)(order[i])
  {
    assert order[..i + 1][..i] == order[..i];
    var first := FirstPerTable(order[..i]);
    assert (first + [order[i]])[..|first|] == first;
  }

  /** The loop over the exit-node map, in whatever order, with its set of finished tables. */
  method GenerateExitRoutes(verb: RouteVerb, order: seq<Peer>) returns (cmds: seq<Cmd>)
    ensures cmds == ExitRouteCmds(verb, order)
  {
    hide FlatMap;
    hide FirstPerTable;
    var done: set<nat> := {};
    cmds := [];
    NoExitRoutes(verb);
    assert order[..0] == [];
    hide ExitRouteCmds;
    for i := 0 to |order|
      invariant cmds == ExitRouteCmds(verb, order[..i])
      invariant forall t :: t in done <==> exists q :: q in order[..i] && q.tableId == t
    {
      ExitRouteStep(verb, order, i);
      assert order[..i + 1] == order[..i] + [order[i]];
      var exit := order[i];
      if exit.tableId !in done {
        cmds := cmds + FlatMap(ExitCmd(verb, exit.tableId), ExitPrefixes(exit));
        done := done + {exit.tableId};
      }
    }
    assert order[..|order|] == order;
  }

  lemma NoExitRoutes(verb: RouteVerb)
    ensures ExitRouteCmds(verb, []) == []
  {
  }

  function GatewayRouteCmd(verb: RouteVerb, g: Gateway, f: Family): seq<Cmd> {
    if DefaultRoute(f) !in g.allowedIPs then []
    else if verb == Replace then [ReplaceRoute(RouteKey(g.tableId, DefaultRoute(f)), Hop(g.iface, None), true)]
    else [DelRoute(RouteKey(g.tableId, DefaultRoute(f)), Some(g.iface))]
  }

  function GatewayRoutesOf(verb: RouteVerb): Gateway -> seq<Cmd> {
    (g: Gateway) => if g.iface == "" || g.tableId == 0 then []
         else GatewayRouteCmd(verb, g, V4) + GatewayRouteCmd(verb, g, V6)
  }

  function GatewayRouteCmds(verb: RouteVerb, cfg: Config): seq<Cmd> {
    FlatMap(GatewayRoutesOf(verb), cfg.gateways)
  }

  method GenerateGatewayRoute(verb: RouteVerb, g: Gateway) returns (cmds: seq<Cmd>)
    ensures cmds == GatewayRoutesOf(verb)(g)
  {
    cmds := [];
    if g.iface == "" || g.tableId == 0 {
      return;
    }
    var hasV4, hasV6 := false, false;
    for j := 0 to |g.allowedIPs|
      invariant hasV4 <==> DefaultRoute(V4) in g.allowedIPs[..j]
      invariant hasV6 <==> DefaultRoute(V6) in g.allowedIPs[..j]
    {
      if g.allowedIPs[j] == DefaultRoute(V4) {
        hasV4 := true;
      } else if g.allowedIPs[j] == DefaultRoute(V6) {
        hasV6 := true;
      }
    }
    assert g.allowedIPs[..|g.allowedIPs|] == g.allowedIPs;
    if hasV4 {
      cmds := cmds + GatewayRouteCmd(verb, g, V4);
    }
    if hasV6 {
      cmds := cmds + GatewayRouteCmd(verb, g, V6);
    }
  }

  method GenerateGatewayRoutes(verb: RouteVerb, cfg: Config) returns (cmds: seq<Cmd>)
    ensures cmds == GatewayRouteCmds(verb, cfg)
  {
    hide FlatMap;
    hide Distinct;
    cmds := [];
    FlatMapEmpty(GatewayRoutesOf(verb), cfg.gateways);
    for i := 0 to |cfg.gateways|
      invariant cmds == FlatMap(GatewayRoutesOf(verb), cfg.gateways[..i])
    {
      FlatMapStep(GatewayRoutesOf(verb), cfg.gateways, i);
      var routes := GenerateGatewayRoute(verb, cfg.gateways[i]);
      cmds := cmds + routes;
    }
    FlatMapWhole(GatewayRoutesOf(verb), cfg.gateways);
  }

  /** Deletion needs only the route key. A strict peer's unresolved route is not installed; any
      other peer's falls back to wg0. */
  function PolicyCmd(verb: RouteVerb, p: Peer, nets: seq<GatewayNet>): PolicyRoute -> seq<Cmd> {
    (r: PolicyRoute) =>
      var key := RouteKey(p.policyTableId, r.dest);
      if verb == Delete then [DelRoute(key, None)]
      else
        var dev := DeviceFor(r.gateway, nets);
        if dev == "" && p.strict then []
        else [ReplaceRoute(key, Hop(if dev == "" then WG_DEVICE else dev, Some(r.gateway)), true)]
  }

  function PolicyPeerCmds(verb: RouteVerb, nets: seq<GatewayNet>): Peer -> seq<Cmd> {
    (p: Peer) => if p.enabled && p.policyRoutes != [] && p.policyTableId != 0 && p.allowedIPs != []
         then FlatMap(PolicyCmd(verb, p, nets), p.policyRoutes) else []
  }

  function PolicyRouteCmds(verb: RouteVerb, inp: Inputs): seq<Cmd> {
    FlatMap(PolicyPeerCmds(verb, inp.nets), inp.cfg.peers)
  }

  method GeneratePolicyPeer(verb: RouteVerb, p: Peer, nets: seq<GatewayNet>) returns (cmds: seq<Cmd>)
    ensures cmds == PolicyPeerCmds(verb, nets)(p)
  {
    hide FlatMap;
    hide Distinct;
    cmds := [];
    if !p.enabled || p.policyRoutes == [] || p.policyTableId == 0 || p.allowedIPs == [] {
      return;
    }
    FlatMapEmpty(PolicyCmd(verb, p, nets), p.policyRoutes);
    for j := 0 to |p.policyRoutes|
      invariant cmds == FlatMap(PolicyCmd(verb, p, nets), p.policyRoutes[..j])
    {
      FlatMapStep(PolicyCmd(verb, p, nets), p.policyRoutes, j);
      var route := p.policyRoutes[j];
      var key := RouteKey(p.policyTableId, route.dest);
      if verb == Delete {
        cmds := cmds + [DelRoute(key, None)];
      } else {
        var dev := DeviceFor(route.gateway, nets);
        if dev == "" {
          if p.strict {
            continue;
          }
          dev := WG_DEVICE;
        }
        cmds := cmds + [ReplaceRoute(key, Hop(dev, Some(route.gateway)), true)];
      }
    }
    FlatMapWhole(PolicyCmd(verb, p, nets), p.policyRoutes);
  }

  method GeneratePolicyRoutes(verb: RouteVerb, inp: Inputs) returns (cmds: seq<Cmd>)
    ensures cmds == PolicyRouteCmds(verb, inp)
  {
    hide FlatMap;
    hide Distinct;
    cmds := [];
    FlatMapEmpty(PolicyPeerCmds(verb, inp.nets), inp.cfg.peers);
    for i := 0 to |inp.cfg.peers|
      invariant cmds == FlatMap(PolicyPeerCmds(verb, inp.nets), inp.cfg.peers[..i])
    {
      FlatMapStep(PolicyPeerCmds(verb, inp.nets), inp.cfg.peers, i);
      var routes := GeneratePolicyPeer(verb, inp.cfg.peers[i], inp.nets);
      cmds := cmds + routes;
    }
    FlatMapWhole(PolicyPeerCmds(verb, inp.nets), inp.cfg.peers);
  }
}
