/** One input on which routing and filtering disagree after a successful Reconcile: a strict peer gives
    up one of its two policy routes, and the deletion of that route is refused. */
module StaleRoute {
  import opened Lists
  import opened Network
  import opened Models
  import opened Kernel
  import opened Runs
  import opened IpRules
  import opened StrictChains
  import opened GatewayChains
  import opened Routes
  import opened Generators
  import opened Effects
  import opened FailClosed
  import opened Guards
  import opened Convergence
  import opened FaultFreeRuns
  import opened Confinement
  import opened Agreement
  import opened SuccessfulRuns
  import opened Leftovers

  const HOST := Address(V4, 2)
  const GATEWAY := Address(V4, 3)
  const DROPPED := Address(V4, 4)
  const TABLE: nat := 100
  const NETS := [GatewayNet("zt0", Prefix(V4, 3, 32))]
  const STALE := RouteKey(TABLE, Prefix(V4, 4, 32))
  const FRESH := RouteKey(TABLE, Prefix(V4, 5, 32))
  const HOP := Hop("zt0", Some(GATEWAY))

  const TO_DROPPED := PolicyRoute(Prefix(V4, 4, 32), GATEWAY)
  const TO_KEPT := PolicyRoute(Prefix(V4, 5, 32), GATEWAY)

  function PeerWith(routes: seq<PolicyRoute>): Peer {
    Peer("p", true, true, [Cidr(HOST, 32)], "", false, false, [], 0, routes, TABLE, "", [])
  }

  function With(routes: seq<PolicyRoute>): Inputs {
    Inputs(Config([PeerWith(routes)], [], ZeroTier(false, false, false)), NETS, [], [], [])
  }

  const OLD: Inputs := With([TO_DROPPED, TO_KEPT])
  const NEW: Inputs := With([TO_KEPT])

  /** A packet to the destination that was given up, on the device of the stale route. */
  const PACKET := Packet(WG_DEVICE, "zt0", HOST, DROPPED, false)

  ghost function Start(): Kernel {
    Kernel(RuleState(OLD), RouteState(OLD), map[Forward(V4) := [], Forward(V6) := [], Postrouting := []])
  }

  // ---------------------------------------------------------------- the generated lists

  lemma One<A, B>(f: A -> seq<B>, x: A)
    ensures FlatMap(f, [x]) == f(x)
  {
    assert [x][..0] == [];
  }

  lemma Two<A, B>(f: A -> seq<B>, x: A, y: A)
    ensures FlatMap(f, [x, y]) == f(x) + f(y)
  {
    assert [x, y][..1] == [x];
    One(f, x);
  }

  lemma OneSource(routes: seq<PolicyRoute>)
    ensures Sources(PeerWith(routes)) == [Prefix(V4, 2, 32)]
  {
    assert Networks(PeerWith(routes).allowedIPs) == [Prefix(V4, 2, 32)];
    assert [Prefix(V4, 2, 32)][..0] == [];
  }

  lemma NoExits(routes: seq<PolicyRoute>)
    ensures ExitNodes(With(routes).cfg.peers) == map[]
  {
    assert [PeerWith(routes)][..0] == [] && !UsableExit(PeerWith(routes));
    assert ExitNodes([]) == map[];
  }

  lemma TwoRules(routes: seq<PolicyRoute>)
    requires routes != []
    ensures PeerRules(With(routes).cfg) ==
              [IpRule(Slot(V4, PEER_BASE), RuleBody(Prefix(V4, 2, 32), None, Lookup(TABLE))),
               IpRule(Slot(V4, PEER_BASE + 1), RuleBody(Prefix(V4, 2, 32), None, Prohibit))]
  {
    hide FlatMap;
    hide Sources;
    hide ExitNodes;
    var peer, src := PeerWith(routes), Prefix(V4, 2, 32);
    OneSource(routes);
    NoExits(routes);
    One(PeerBlocks(map[]), peer);
    One(SourceRulesOf(peer, map[]), src);
    assert PeerRuleBodies(With(routes).cfg) == SourceRules(peer, map[], src);
  }

  lemma IsValid(routes: seq<PolicyRoute>)
    requires routes != []
    ensures Valid(With(routes)) && ForeignTo(map[], map[], With(routes))
  {
    var peer, gateways: map<string, Gateway> := PeerWith(routes), GatewayInterfaces([]);
    OneSource(routes);
    NoExits(routes);
    TwoRules(routes);
    hide PeerRules;
    One(DevicePeerRules(gateways), peer);
    One(LanPeerRules([]), peer);
    One(LanSourceRules([]), Prefix(V4, 2, 32));
    One(LanDeviceRules([]), peer);
  }

  lemma OnZeroTier()
    ensures DeviceFor(GATEWAY, NETS) == "zt0"
  {
    assert NETS[..0] == [];
    assert Contains(NETS[0].net, GATEWAY);
  }

  lemma PolicyOf(routes: seq<PolicyRoute>)
    requires routes == [TO_KEPT] || routes == [TO_DROPPED, TO_KEPT]
    ensures PolicyRouteCmds(Replace, With(routes)) ==
            if routes == [TO_KEPT] then [ReplaceRoute(FRESH, HOP, true)]
            else [ReplaceRoute(STALE, HOP, true), ReplaceRoute(FRESH, HOP, true)]
  {
    var peer := PeerWith(routes);
    OnZeroTier();
    hide DeviceFor;
    One(PolicyPeerCmds(Replace, NETS), peer);
    One(PolicyCmd(Replace, peer, NETS), TO_KEPT);
    Two(PolicyCmd(Replace, peer, NETS), TO_DROPPED, TO_KEPT);
  }

  lemma TwoRoutes(a: Cmd, b: Cmd)
    requires a.ReplaceRoute? && b.ReplaceRoute? && a.key != b.key
    ensures a.key in RouteMap([a, b]) && RouteMap([a, b])[a.key] == a.hop
  {
    assert [a, b][..1] == [a] && [a][..0] == [];
    assert RouteMap([a]) == map[][a.key := a.hop];
  }

  lemma StaleIsThere()
    ensures STALE in RouteState(OLD) && RouteState(OLD)[STALE] == HOP
  {
    hide ExitRoutes;
    hide RouteMap;
    hide FlatMap;
    PolicyOf([TO_DROPPED, TO_KEPT]);
    TwoRoutes(ReplaceRoute(STALE, HOP, true), ReplaceRoute(FRESH, HOP, true));
  }

  lemma OnlyKeptWritten(c: Cmd)
    requires c in SharedRoutesUp(NEW) + PolicyRouteCmds(Replace, NEW)
    ensures c == ReplaceRoute(FRESH, HOP, true)
  {
    PolicyOf([TO_KEPT]);
    hide PolicyRouteCmds;
    assert FirstPerTable([]) == [];
    assert ExitRouteCmds(Replace, []) == [] && GatewayRouteCmds(Replace, NEW.cfg) == [];
  }

  // ---------------------------------------------------------------- the run

  /** Every deletion of the stale route is refused and everything else is done. */
  ghost predicate KeepsStale(env: nat -> Outcome) {
    var cmds := ReconcileCmds(OLD, NEW);
    forall i: nat :: i < |cmds| ==> env(i) == if cmds[i].DelRoute? && cmds[i].key == STALE then Refused else Done
  }

  lemma StartIsSane()
    ensures Sane(Start())
  {
    hide RuleState;
    hide RouteState;
    hide With;
    forall f: Family
      ensures Forward(f) in Start().chains
    {
      assert f == V4 || f == V6;
    }
  }

  lemma Succeeds(env: nat -> Outcome)
    requires KeepsStale(env)
    ensures Run(Start(), ReconcileCmds(OLD, NEW), env, 0).ok
  {
    hide ReconcileCmds;
    hide RunFrom;
    hide RuleState;
    hide RouteState;
    hide Valid;
    StartIsSane();
    IsValid([TO_DROPPED, TO_KEPT]);
    IsValid([TO_KEPT]);
    hide With;
    hide ForeignTo;
    assert Holds(Start(), OLD, map[], map[]) by {
      assert map[] + RuleState(OLD) == RuleState(OLD) && map[] + RouteState(OLD) == RouteState(OLD);
    }
    hide Holds;
    hide Sane;
    assert OnlyRoutesFail(ReconcileCmds(OLD, NEW), env, 0);
    OnlyRoutesFailSucceeds(Start(), OLD, NEW, map[], map[], env, 0);
  }

  lemma StaleStays(env: nat -> Outcome)
    requires KeepsStale(env)
    ensures var routes := Run(Start(), ReconcileCmds(OLD, NEW), env, 0).Final().routes;
            STALE in routes && routes[STALE] == HOP
  {
    Succeeds(env);
    StaleIsThere();
    StaleUntouched(env);
    hide RunFrom;
    hide RouteState;
    hide RuleState;
    hide ReconcileCmds;
    hide RouteGone;
    RouteStays(Start(), ReconcileCmds(OLD, NEW), env, 0, STALE);
  }

  lemma StaleUntouched(env: nat -> Outcome)
    requires KeepsStale(env)
    ensures !RouteGone(ReconcileCmds(OLD, NEW), env, 0, STALE, HOP)
  {
    hide ReconcileCmds;
    var cmds := ReconcileCmds(OLD, NEW);
    forall i: nat | i < |cmds| && Lands(env(0 + i))
      ensures !DeletesRoute(cmds[i], STALE, HOP) && !(cmds[i].ReplaceRoute? && cmds[i].key == STALE)
    {
      assert cmds[i] in cmds && env(i) == env(0 + i);
      if cmds[i].ReplaceRoute? {
        NotStale(cmds[i]);
      }
    }
  }

  lemma NotStale(c: Cmd)
    requires c in ReconcileCmds(OLD, NEW) && c.ReplaceRoute?
    ensures c.key != STALE
  {
    hide ReconcileCmds;
    RouteWriter(OLD, NEW, c);
    OnlyKeptWritten(c);
  }

  lemma BlockIsNew(env: nat -> Outcome)
    requires KeepsStale(env)
    ensures PeerBlockInstalled(Run(Start(), ReconcileCmds(OLD, NEW), env, 0).Final(), NEW.cfg)
  {
    hide ReconcileCmds;
    hide RunFrom;
    hide PeerRules;
    hide WithinGaps;
    hide RuleGone;
    hide RulesInStep;
    hide PeerBlockInstalled;
    hide KeepsStale;
    hide Start;
    Succeeds(env);
    InStepAtStart();
    forall x | x in PeerRules(OLD.cfg)
      ensures RuleGone(ReconcileCmds(OLD, NEW), env, 0, x)
    {
      DeletionLands(env, x);
    }
    BlockExact(Start(), OLD, NEW, map[], env, 0);
  }

  lemma InStepAtStart()
    ensures RulesInStep(Start(), OLD, map[]) && WithinGaps(NEW)
  {
    hide RuleState;
    hide AllRules;
    hide WithinGaps;
    hide With;
    hide UniqueTables;
    hide Enumerates;
    IsValid([TO_DROPPED, TO_KEPT]);
    IsValid([TO_KEPT]);
    assert map[] + RuleState(OLD) == RuleState(OLD);
  }

  lemma DeletionLands(env: nat -> Outcome, x: IpRule)
    requires KeepsStale(env) && x in PeerRules(OLD.cfg)
    ensures RuleGone(ReconcileCmds(OLD, NEW), env, 0, x)
  {
    hide ReconcileCmds;
    hide PeerRules;
    hide Teardown;
    PeerRuleDeleted(OLD, x);
    TeardownPart(OLD, NEW, DelRule(x.slot, x.body));
    var cmds := ReconcileCmds(OLD, NEW);
    var i: nat :| i < |cmds| && cmds[i] == DelRule(x.slot, x.body);
    assert env(i) == Done && env(0 + i) == env(i);
    assert GoneBy(cmds[i], env(0 + i), x);
  }

  /** The rules send the packet to the peer's table, and the stale route sends it to zt0. */
  lemma StaleDecides(k: Kernel)
    requires PeerBlockInstalled(k, NEW.cfg) && STALE in k.routes && k.routes[STALE] == HOP
    ensures Decide(k, PACKET, 1) == Routed(PEER_BASE, TABLE, STALE, HOP)
  {
    TwoRules([TO_KEPT]);
    assert NoReservedTables(NEW.cfg);
    BlockIsPrivate(k, NEW.cfg);
    SkipBelow(k, PACKET, 1);
    var body := RuleBody(Prefix(V4, 2, 32), None, Lookup(TABLE));
    assert IpRule(Slot(V4, PEER_BASE), body) in PeerRules(NEW.cfg);
    assert At(k.rules, Slot(V4, PEER_BASE)) == [body];
    assert RouteKey(TABLE, NetworkOf(DROPPED, 32)) == STALE;
    assert TableLookup(k.routes, TABLE, DROPPED, 32) == Some(STALE);
    assert BodyMatches(body, PACKET);
    assert SlotDecision(k, PEER_BASE, [body], PACKET) == Routed(PEER_BASE, TABLE, STALE, HOP);
  }

  lemma NotAllowed()
    ensures !AllowedEgress(NEW.cfg, NETS, PeerWith([TO_KEPT]), PACKET)
  {
    hide DeviceFor;
    assert !Contains(TO_KEPT.dest, DROPPED);
  }

  lemma IsFromPeer()
    ensures var peer := PeerWith([TO_KEPT]);
            FromAddress(peer, HOST) && OwnAddress(NEW.cfg, peer, HOST)
  {
    OneSource([TO_KEPT]);
    assert Prefix(V4, 2, 32) in Sources(PeerWith([TO_KEPT])) && Contains(Prefix(V4, 2, 32), HOST);
  }

  /** Reconcile reports success; the packet is routed to zt0 through the route that was given up; and
      the strict chain rejects it there. */
  lemma StaleRouteRejected(env: nat -> Outcome)
    requires KeepsStale(env)
    ensures var r := Run(Start(), ReconcileCmds(OLD, NEW), env, 0);
            && r.ok && Decide(r.Final(), PACKET, 1) == Routed(PEER_BASE, TABLE, STALE, HOP)
               && HOP.device == PACKET.outDev
            && StrictChain(V4) in r.Final().chains && UserVerdict(r.Final().chains[StrictChain(V4)], PACKET) == Rejected
  {
    Succeeds(env);
    StaleStays(env);
    BlockIsNew(env);
    StartIsSane();
    NotAllowed();
    IsFromPeer();
    hide ReconcileCmds;
    hide RunFrom;
    hide RuleState;
    hide RouteState;
    hide Sane;
    hide PeerBlockInstalled;
    hide UserVerdict;
    hide AllowedEgress;
    hide OwnAddress;
    hide FromAddress;
    hide Decide;
    hide KeepsStale;
    StaleDecides(Run(Start(), ReconcileCmds(OLD, NEW), env, 0).Final());
    SuccessFilters(Start(), OLD, NEW, env, 0, PeerWith([TO_KEPT]), PACKET);
  }
}
