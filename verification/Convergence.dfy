/** Exact convergence: a successful fault-free Reconcile replaces the previous configuration's
    rules, routes and strict chains by exactly the next one's, and leaves everything foreign as it
    was. */
module Convergence {
  import opened Lists
  import opened Network
  import opened Models
  import opened Kernel
  import opened Runs
  import opened IpRules
  import opened StrictChains
  import opened GatewayChains
  import opened Routes
  import opened Generators
  import opened Effects
  import opened FailClosed
  import opened Guards

  // ---------------------------------------------------------------- target state

  ghost function AllRules(inp: Inputs): seq<IpRule> {
    OtherRules(inp) + PeerRules(inp.cfg)
  }

  /** The rule database entries of a configuration. */
  ghost function RuleState(inp: Inputs): map<Slot, seq<RuleBody>> {
    RuleMap(AllRules(inp))
  }

  ghost function ExitKeys(cfg: Config): set<RouteKey> {
    set p, d | p in ExitNodes(cfg.peers).Values && d in ExitPrefixes(p) :: RouteKey(p.tableId, d)
  }

  /** The routes of all exit nodes, in no particular order. */
  ghost function ExitRoutes(cfg: Config): map<RouteKey, Hop> {
    map key | key in ExitKeys(cfg) :: WG_HOP
  }

  /** The private-table entries of a configuration: exit, gateway and policy routes. */
  ghost function RouteState(inp: Inputs): map<RouteKey, Hop> {
    ExitRoutes(inp.cfg) + RouteMap(GatewayRouteCmds(Replace, inp.cfg)) + RouteMap(PolicyRouteCmds(Replace, inp))
  }

  /** Every key the teardown of a configuration addresses. */
  ghost function ManagedKeys(inp: Inputs): set<RouteKey> {
    set c | c in RoutesDown(inp) && c.DelRoute? :: c.key
  }

  // ---------------------------------------------------------------- premises

  /** The priority blocks stay within their gaps. */
  ghost predicate WithinGaps(inp: Inputs) {
    && |PeerRules(inp.cfg)| <= DEVICE_BASE - PEER_BASE
    && |DeviceRules(inp.cfg)| <= LOCAL_BASE - DEVICE_BASE
    && |LocalRules(inp.cfg, inp.lan)| <= GATEWAY_BASE - LOCAL_BASE
  }

  /** What the convergence results ask of a configuration: unique peer tables, as validation demands of
      every saved one; an iteration order that lists the exit-node map; and priority blocks within their
      gaps, which nothing in the program bounds. */
  ghost predicate Valid(inp: Inputs) {
    UniqueTables(inp.cfg.peers) && WithinGaps(inp) && Enumerates(inp.exitOrder, ExitNodes(inp.cfg.peers))
  }

  lemma AllSlotsDistinct(inp: Inputs)
    requires WithinGaps(inp)
    ensures DistinctSlots(AllRules(inp))
    ensures DistinctSlots(PeerRules(inp.cfg)) && DistinctSlots(OtherRules(inp))
  {
    var local, gateway, device := LocalRules(inp.cfg, inp.lan), GatewayRules(inp.cfg), DeviceRules(inp.cfg);
    var peer := PeerRules(inp.cfg);
    BlocksDistinct(local, gateway, device, peer);
  }

  ghost predicate Block(xs: seq<IpRule>, base: nat) {
    forall i :: 0 <= i < |xs| ==> xs[i].slot.priority == base + i
  }

  lemma BlocksDistinct(local: seq<IpRule>, gateway: seq<IpRule>, device: seq<IpRule>, peer: seq<IpRule>)
    requires Block(local, LOCAL_BASE) && Block(gateway, GATEWAY_BASE) && Block(device, DEVICE_BASE)
             && Block(peer, PEER_BASE)
    requires |peer| <= DEVICE_BASE - PEER_BASE && |device| <= LOCAL_BASE - DEVICE_BASE
             && |local| <= GATEWAY_BASE - LOCAL_BASE
    ensures DistinctSlots((local + (gateway + device)) + peer)
    ensures DistinctSlots(peer) && DistinctSlots(local + (gateway + device))
  {
  }

  // ---------------------------------------------------------------- exit routes, in any order

  lemma {:induction false} FirstPerTableSubset(order: seq<Peer>, p: Peer)
    requires p in FirstPerTable(order)
    ensures p in order
  {
    if order != [] {
      var init, last := order[..|order| - 1], order[|order| - 1];
      assert order == init + [last];
      if p in FirstPerTable(init) {
        FirstPerTableSubset(init, p);
      }
    }
  }

  lemma {:induction false} FirstPerTableCovers(order: seq<Peer>, p: Peer) returns (q: Peer)
    requires p in order
    ensures q in FirstPerTable(order) && q.tableId == p.tableId
  {
    var init, last := order[..|order| - 1], order[|order| - 1];
    assert order == init + [last];
    if x :| x in init && x.tableId == last.tableId {
      q := FirstPerTableCovers(init, if p in init then p else x);
    } else if p in init {
      q := FirstPerTableCovers(init, p);
    } else {
      q := last;
    }
  }

  lemma TableOwner(peers: seq<Peer>, p: Peer, q: Peer)
    requires UniqueTables(peers) && p in peers && q in peers
    requires p.tableId == q.tableId != 0
    ensures p == q
  {
    var i :| 0 <= i < |peers| && peers[i] == p;
    var j :| 0 <= j < |peers| && peers[j] == q;
    assert i == j;
  }

  /** With unique tables, no exit node is skipped. */
  lemma NoExitSkipped(inp: Inputs, p: Peer)
    requires Valid(inp)
    ensures p in FirstPerTable(inp.exitOrder) <==> p in ExitNodes(inp.cfg.peers).Values
  {
    hide FirstPerTable;
    hide WithinGaps;
    hide ExitNodes;
    var peers := inp.cfg.peers;
    ExitNodesSound(peers);
    if p in ExitNodes(peers).Values {
      var q := FirstPerTableCovers(inp.exitOrder, p);
      FirstPerTableSubset(inp.exitOrder, q);
      TableOwner(peers, p, q);
    }
    if p in FirstPerTable(inp.exitOrder) {
      FirstPerTableSubset(inp.exitOrder, p);
    }
  }

  lemma ExitCmdMember(verb: RouteVerb, inp: Inputs, c: Cmd)
    requires Valid(inp)
    ensures c in ExitRouteCmds(verb, inp.exitOrder) <==>
              exists p, d ::
                  p in ExitNodes(inp.cfg.peers).Values && d in ExitPrefixes(p) && c in ExitCmd(verb, p.tableId)(d)
  {
    hide FlatMap;
    hide FirstPerTable;
    hide Valid;
    hide ExitNodes;
    var exits := ExitNodes(inp.cfg.peers).Values;
    InFlatMap(ExitCmds(verb), FirstPerTable(inp.exitOrder), c);
    if p, d :| p in exits && d in ExitPrefixes(p) && c in ExitCmd(verb, p.tableId)(d) {
      NoExitSkipped(inp, p);
      InFlatMap(ExitCmd(verb, p.tableId), ExitPrefixes(p), c);
      assert c in ExitCmds(verb)(p);
    }
    if c in ExitRouteCmds(verb, inp.exitOrder) {
      var p :| p in FirstPerTable(inp.exitOrder) && c in ExitCmds(verb)(p);
      NoExitSkipped(inp, p);
      InFlatMap(ExitCmd(verb, p.tableId), ExitPrefixes(p), c);
    }
  }

  /** The routes an iteration installs do not depend on its order. */
  lemma ExitRoutesAnyOrder(inp: Inputs)
    requires Valid(inp)
    ensures RouteMap(ExitRouteCmds(Replace, inp.exitOrder)) == ExitRoutes(inp.cfg)
  {
    hide FlatMap;
    hide FirstPerTable;
    hide Valid;
    hide ExitRouteCmds;
    var cmds := ExitRouteCmds(Replace, inp.exitOrder);
    RouteMapOrigin(cmds);
    hide RouteMap;
    forall key | key in RouteMap(cmds)
      ensures key in ExitKeys(inp.cfg) && RouteMap(cmds)[key] == WG_HOP
    {
      var c :| c in cmds && c.ReplaceRoute? && c.key == key && c.hop == RouteMap(cmds)[key];
      ExitCmdMember(Replace, inp, c);
    }
    forall key | key in ExitKeys(inp.cfg)
      ensures key in RouteMap(cmds)
    {
      var p, d :| p in ExitNodes(inp.cfg.peers).Values && d in ExitPrefixes(p) && key == RouteKey(p.tableId, d);
      var c := ReplaceRoute(key, WG_HOP, false);
      assert c in ExitCmd(Replace, p.tableId)(d);
      ExitCmdMember(Replace, inp, c);
    }
  }

  // ---------------------------------------------------------------- every installed route is deleted

  lemma GatewayRouteDeleted(cfg: Config, c: Cmd)
    requires c in GatewayRouteCmds(Replace, cfg)
    ensures c.ReplaceRoute? && DelRoute(c.key, Some(c.hop.device)) in GatewayRouteCmds(Delete, cfg)
  {
    hide FlatMap;
    InFlatMap(GatewayRoutesOf(Replace), cfg.gateways, c);
    var g :| g in cfg.gateways && c in GatewayRoutesOf(Replace)(g);
    var d := DelRoute(c.key, Some(c.hop.device));
    assert d in GatewayRoutesOf(Delete)(g);
    InFlatMap(GatewayRoutesOf(Delete), cfg.gateways, d);
  }

  lemma PolicyRouteDeleted(inp: Inputs, c: Cmd)
    requires c in PolicyRouteCmds(Replace, inp)
    ensures c.ReplaceRoute? && DelRoute(c.key, None) in PolicyRouteCmds(Delete, inp)
  {
    hide FlatMap;
    InFlatMap(PolicyPeerCmds(Replace, inp.nets), inp.cfg.peers, c);
    var p :| p in inp.cfg.peers && c in PolicyPeerCmds(Replace, inp.nets)(p);
    InFlatMap(PolicyCmd(Replace, p, inp.nets), p.policyRoutes, c);
    var r :| r in p.policyRoutes && c in PolicyCmd(Replace, p, inp.nets)(r);
    var d := DelRoute(c.key, None);
    assert d in PolicyCmd(Delete, p, inp.nets)(r);
    InFlatMap(PolicyCmd(Delete, p, inp.nets), p.policyRoutes, d);
    assert d in PolicyPeerCmds(Delete, inp.nets)(p);
    InFlatMap(PolicyPeerCmds(Delete, inp.nets), inp.cfg.peers, d);
  }

  lemma ExitRouteDeleted(inp: Inputs, key: RouteKey)
    requires Valid(inp) && key in ExitKeys(inp.cfg)
    ensures DelRoute(key, Some(WG_DEVICE)) in ExitRouteCmds(Delete, inp.exitOrder)
  {
    hide Valid;
    hide ExitRouteCmds;
    var p, d :| p in ExitNodes(inp.cfg.peers).Values && d in ExitPrefixes(p) && key == RouteKey(p.tableId, d);
    var c := DelRoute(key, Some(WG_DEVICE));
    assert c in ExitCmd(Delete, p.tableId)(d);
    ExitCmdMember(Delete, inp, c);
  }

  lemma DownDeletes(inp: Inputs, c: Cmd, key: RouteKey, hop: Hop)
    requires c in GatewayRouteCmds(Delete, inp.cfg) || c in ExitRouteCmds(Delete, inp.exitOrder)
             || c in PolicyRouteCmds(Delete, inp)
    requires c == DelRoute(key, None) || c == DelRoute(key, Some(hop.device))
    ensures Deletes(RoutesDown(inp), key, hop) && key in ManagedKeys(inp)
  {
    hide GatewayRouteCmds;
    hide ExitRouteCmds;
    hide PolicyRouteCmds;
    assert c in RoutesDown(inp);
  }

  lemma EveryRouteDeleted(inp: Inputs, key: RouteKey)
    requires Valid(inp) && key in RouteState(inp)
    ensures Deletes(RoutesDown(inp), key, RouteState(inp)[key]) && key in ManagedKeys(inp)
  {
    hide Valid;
    hide GatewayRouteCmds;
    hide ExitRouteCmds;
    hide PolicyRouteCmds;
    hide RoutesDown;
    hide Deletes;
    var gateway, policy := GatewayRouteCmds(Replace, inp.cfg), PolicyRouteCmds(Replace, inp);
    RouteMapOrigin(gateway);
    RouteMapOrigin(policy);
    hide RouteMap;
    var hop := RouteState(inp)[key];
    if key in RouteMap(policy) {
      var c :| c in policy && c.ReplaceRoute? && c.key == key && c.hop == RouteMap(policy)[key];
      PolicyRouteDeleted(inp, c);
      DownDeletes(inp, DelRoute(key, None), key, hop);
    } else if key in RouteMap(gateway) {
      var c :| c in gateway && c.ReplaceRoute? && c.key == key && c.hop == RouteMap(gateway)[key];
      GatewayRouteDeleted(inp.cfg, c);
      DownDeletes(inp, DelRoute(key, Some(hop.device)), key, hop);
    } else {
      ExitRouteDeleted(inp, key);
      DownDeletes(inp, DelRoute(key, Some(WG_DEVICE)), key, hop);
    }
  }

  lemma RoutesDownShape(inp: Inputs)
    ensures forall c :: c in RoutesDown(inp) ==> c.DelRoute?
  {
    hide FlatMap;
    forall c | c in RoutesDown(inp)
      ensures c.DelRoute?
    {
      if c in GatewayRouteCmds(Delete, inp.cfg) {
        InFlatMap(GatewayRoutesOf(Delete), inp.cfg.gateways, c);
      } else if c in ExitRouteCmds(Delete, inp.exitOrder) {
        InFlatMap(ExitCmds(Delete), FirstPerTable(inp.exitOrder), c);
        var p :| p in FirstPerTable(inp.exitOrder) && c in ExitCmds(Delete)(p);
        InFlatMap(ExitCmd(Delete, p.tableId), ExitPrefixes(p), c);
      } else {
        InFlatMap(PolicyPeerCmds(Delete, inp.nets), inp.cfg.peers, c);
        var p :| p in inp.cfg.peers && c in PolicyPeerCmds(Delete, inp.nets)(p);
        InFlatMap(PolicyCmd(Delete, p, inp.nets), p.policyRoutes, c);
      }
    }
  }

  /** Deleting a configuration's routes from foreign routes plus its own leaves the foreign ones. */
  lemma RoutesDownEffect(k: Kernel, inp: Inputs, foreign: map<RouteKey, Hop>)
    requires Valid(inp) && k.routes == foreign + RouteState(inp)
    requires foreign.Keys !! ManagedKeys(inp)
    ensures Do(k, RoutesDown(inp)).routes == foreign
  {
    hide Valid;
    hide RouteState;
    hide RoutesDown;
    RoutesDownShape(inp);
    DeleteEffect(k, RoutesDown(inp));
    hide Do;
    forall key | key in k.routes
      ensures Deletes(RoutesDown(inp), key, k.routes[key]) <==> key !in foreign
    {
      if key in RouteState(inp) {
        EveryRouteDeleted(inp, key);
      }
    }
    forall key | key in foreign
      ensures k.routes[key] == foreign[key]
    {
      if key in RouteState(inp) {
        EveryRouteDeleted(inp, key);
      }
    }
  }

  /** The set-up commands install exactly the configuration's routes on top of what is there. */
  lemma RouteStateEffect(k: Kernel, inp: Inputs, between: seq<Cmd>)
    requires Valid(inp) && forall c :: c in between ==> !TouchesRoutes(c)
    ensures Do(Do(Do(k, SharedRoutesUp(inp)), between), PolicyRouteCmds(Replace, inp)).routes == k.routes
            + RouteState(inp)
  {
    hide Valid;
    hide RouteMap;
    hide ExitRoutes;
    hide FlatMap;
    var shared, policy := SharedRoutesUp(inp), PolicyRouteCmds(Replace, inp);
    SharedUpShape(inp);
    PolicyUpShape(inp);
    hide GatewayRouteCmds;
    hide ExitRouteCmds;
    hide PolicyRouteCmds;
    ReplaceEffect(k, shared);
    KeepsRoutes(Do(k, shared), between);
    ReplaceEffect(Do(Do(k, shared), between), policy);
    RouteMapAppend(ExitRouteCmds(Replace, inp.exitOrder), GatewayRouteCmds(Replace, inp.cfg));
    ExitRoutesAnyOrder(inp);
  }

  lemma SharedUpShape(inp: Inputs)
    ensures forall c :: c in SharedRoutesUp(inp) ==> c.ReplaceRoute?
  {
    hide FlatMap;
    forall c | c in SharedRoutesUp(inp)
      ensures c.ReplaceRoute?
    {
      if c in GatewayRouteCmds(Replace, inp.cfg) {
        GatewayRouteDeleted(inp.cfg, c);
      } else {
        InFlatMap(ExitCmds(Replace), FirstPerTable(inp.exitOrder), c);
        var p :| p in FirstPerTable(inp.exitOrder) && c in ExitCmds(Replace)(p);
        InFlatMap(ExitCmd(Replace, p.tableId), ExitPrefixes(p), c);
      }
    }
  }

  lemma PolicyUpShape(inp: Inputs)
    ensures forall c :: c in PolicyRouteCmds(Replace, inp) ==> c.ReplaceRoute?
  {
    forall c | c in PolicyRouteCmds(Replace, inp)
      ensures c.ReplaceRoute?
    {
      PolicyRouteDeleted(inp, c);
    }
  }

  // ---------------------------------------------------------------- whole phases

  /** Foreign state: rules at slots and routes at keys that the configuration does not manage. */
  ghost predicate ForeignTo(rules: map<Slot, seq<RuleBody>>, routes: map<RouteKey, Hop>, inp: Inputs) {
    rules.Keys !! Slots(AllRules(inp)) && routes.Keys !! ManagedKeys(inp)
  }

  /** The managed rules and tables are exactly those of a configuration, the rest is foreign. */
  ghost predicate Holds(k: Kernel, inp: Inputs, rules: map<Slot, seq<RuleBody>>, routes: map<RouteKey, Hop>) {
    k.rules == rules + RuleState(inp) && k.routes == routes + RouteState(inp)
  }

  lemma ChainCmdsOnly(inp: Inputs, c: Cmd)
    requires c in ZeroTierDown(inp) || c in ZeroTierUp(inp) || c in GATEWAY_DOWN || c in GATEWAY_INIT
             || c in StrictUp(inp.cfg, inp.nets) || c in StrictDown() || c in GatewayAppends(inp.cfg, inp.lan)
    ensures !TouchesRules(c) && !TouchesRoutes(c)
    ensures c.DropChain? ==> !c.chain.Forward? && c.chain != Postrouting
  {
    hide GatewayAppends;
    hide StrictEgress;
    if c in GatewayAppends(inp.cfg, inp.lan) {
      GatewayAppendsShape(inp.cfg, inp.lan, c);
    }
  }

  lemma PureChains(inp: Inputs, k: Kernel, cmds: seq<Cmd>)
    requires forall c :: c in cmds ==>
               c in ZeroTierDown(inp) || c in ZeroTierUp(inp) || c in GATEWAY_DOWN || c in GATEWAY_INIT
               || c in StrictUp(inp.cfg, inp.nets) || c in StrictDown() || c in GatewayAppends(inp.cfg, inp.lan)
    ensures Do(k, cmds).rules == k.rules && Do(k, cmds).routes == k.routes
    ensures k.BuiltIns() ==> Do(k, cmds).BuiltIns()
  {
    forall c | c in cmds
      ensures !TouchesRules(c) && !TouchesRoutes(c) && (c.DropChain? ==> !c.chain.Forward? && c.chain != Postrouting)
    {
      ChainCmdsOnly(inp, c);
    }
    KeepsRules(k, cmds);
    KeepsRoutes(k, cmds);
    if k.BuiltIns() {
      KeepsBuiltIns(k, cmds);
    }
  }

  lemma DelRulesFrame(k: Kernel, xs: seq<IpRule>)
    ensures Do(k, DelRules(xs)).routes == k.routes && Do(k, SetRules(xs)).routes == k.routes
    ensures k.BuiltIns() ==> Do(k, DelRules(xs)).BuiltIns() && Do(k, SetRules(xs)).BuiltIns()
  {
    KeepsRoutes(k, DelRules(xs));
    KeepsRoutes(k, SetRules(xs));
    if k.BuiltIns() {
      KeepsBuiltIns(k, DelRules(xs));
      KeepsBuiltIns(k, SetRules(xs));
    }
  }

  lemma RoutesDownFrame(k: Kernel, inp: Inputs)
    ensures Do(k, RoutesDown(inp)).rules == k.rules
    ensures k.BuiltIns() ==> Do(k, RoutesDown(inp)).BuiltIns()
  {
    hide RoutesDown;
    RoutesDownShape(inp);
    KeepsRules(k, RoutesDown(inp));
    if k.BuiltIns() {
      KeepsBuiltIns(k, RoutesDown(inp));
    }
  }

  lemma RulesPresent(inp: Inputs, m: map<Slot, seq<RuleBody>>, xs: seq<IpRule>, rest: map<Slot, seq<RuleBody>>)
    requires WithinGaps(inp) && rest.Keys !! Slots(AllRules(inp))
    requires forall x :: x in xs ==> x in AllRules(inp)
    requires forall s :: s in m ==> (s in rest + RuleState(inp) && m[s] == (rest + RuleState(inp))[s])
    ensures forall x :: x in xs && x.slot in m ==> m[x.slot] == [x.body]
  {
    hide AllRules;
    hide WithinGaps;
    AllSlotsDistinct(inp);
    RuleMapAt(AllRules(inp));
    forall x | x in xs && x.slot in m
      ensures m[x.slot] == [x.body]
    {
      var i :| 0 <= i < |AllRules(inp)| && AllRules(inp)[i] == x;
    }
  }

  /** Step 2 leaves exactly the foreign rules and routes. */
  lemma TeardownEffect(k: Kernel, prev: Inputs, rules: map<Slot, seq<RuleBody>>, routes: map<RouteKey, Hop>)
    requires Valid(prev) && k.BuiltIns() && Holds(k, prev, rules, routes) && ForeignTo(rules, routes, prev)
    ensures var k' := Do(k, Teardown(prev)); k'.rules == rules && k'.routes == routes && k'.BuiltIns()
  {
    hide RouteState;
    hide RoutesDown;
    hide RuleState;
    hide Kernel.BuiltIns;
    hide PeerRules;
    hide OtherRules;
    var peer, other := PeerRules(prev.cfg), OtherRules(prev);
    var k1 := Do(k, ZeroTierDown(prev));
    var k2 := Do(k1, DelRules(peer));
    var k3 := Do(k2, GATEWAY_DOWN);
    var k4 := Do(k3, DelRules(other));
    var k5 := Do(k4, RoutesDown(prev));
    TeardownStates(k, prev);
    PureChains(prev, k, ZeroTierDown(prev));
    PureChains(prev, k2, GATEWAY_DOWN);
    DelRulesFrame(k1, peer);
    DelRulesFrame(k3, other);
    RoutesDownFrame(k4, prev);
    DeleteAllRules(k1, k3, prev, rules);
    RoutesDownEffect(k4, prev, routes);
  }

  lemma TeardownStates(k: Kernel, prev: Inputs)
    ensures Do(k, Teardown(prev)) ==
              Do(Do(Do(Do(Do(k, ZeroTierDown(prev)), DelRules(PeerRules(prev.cfg))), GATEWAY_DOWN),
                    DelRules(OtherRules(prev))), RoutesDown(prev))
  {
    hide Do;
    hide RoutesDown;
    var a, b, c, d, e := ZeroTierDown(prev), DelRules(PeerRules(prev.cfg)), GATEWAY_DOWN, DelRules(OtherRules(prev)),
        RoutesDown(prev);
    DoAppend(k, a, b);
    DoAppend(Do(k, a + b), c, d);
    DoAppend(k, a + b, c + d);
    DoAppend(k, (a + b) + (c + d), e);
  }

  lemma Cancel<K, V>(m: map<K, V>, n: map<K, V>, s: set<K>, t: set<K>)
    requires n.Keys == s + t && m.Keys !! n.Keys
    ensures (m + n) - t - s == m
  {
  }

  lemma DeleteAllRules(k1: Kernel, k3: Kernel, prev: Inputs, rules: map<Slot, seq<RuleBody>>)
    requires WithinGaps(prev) && rules.Keys !! Slots(AllRules(prev))
    requires k1.rules == rules + RuleState(prev)
    requires k3.rules == Do(k1, DelRules(PeerRules(prev.cfg))).rules
    ensures Do(k3, DelRules(OtherRules(prev))).rules == rules
  {
    var peer, other := PeerRules(prev.cfg), OtherRules(prev);
    AllSlotsDistinct(prev);
    hide WithinGaps;
    hide PeerRules;
    hide OtherRules;
    RuleMapAt(AllRules(prev));
    hide RuleMap;
    assert Slots(AllRules(prev)) == Slots(other) + Slots(peer);
    RulesPresent(prev, k1.rules, peer, rules);
    DelRulesEffect(k1, peer);
    hide Do;
    RulesPresent(prev, k3.rules, other, rules);
    DelRulesEffect(k3, other);
    hide RuleState;
    Cancel(rules, RuleState(prev), Slots(other), Slots(peer));
  }

  /** Steps 3 and 4 install exactly the next rules, routes and strict chains. */
  lemma SetupEffect(k: Kernel, next: Inputs, rules: map<Slot, seq<RuleBody>>)
    requires Valid(next) && k.BuiltIns() && k.rules == rules && rules.Keys !! Slots(AllRules(next))
    ensures var k' := Do(k, Setup(next));
            k'.rules == rules + RuleState(next) && k'.routes == k.routes + RouteState(next)
  {
    hide RouteState;
    hide PeerRules;
    hide OtherRules;
    hide PolicyRouteCmds;
    hide SharedRoutesUp;
    hide Kernel.BuiltIns;
    hide Do;
    hide GatewayAppends;
    hide ZeroTierUp;
    hide UniqueTables;
    hide WithinGaps;
    hide Enumerates;
    var shared, policy := SharedRoutesUp(next), PolicyRouteCmds(Replace, next);
    var chains := GATEWAY_INIT + (GatewayAppends(next.cfg, next.lan) + ZeroTierUp(next));
    var sets := SetRules(AllRules(next));
    SetupStates(k, next);
    var k1 := Do(k, shared);
    var k2 := Do(k1, chains);
    var k3 := Do(k2, sets);
    SharedUpShape(next);
    PolicyUpShape(next);
    KeepsRules(k, shared);
    PureChains(next, k1, chains);
    AllSlotsDistinct(next);
    assert forall x :: x in AllRules(next) ==> x.slot in Slots(AllRules(next));
    SetRulesEffect(k2, AllRules(next));
    KeepsRules(k3, policy);
    DoAppend(k1, chains, sets);
    forall c | c in chains + sets
      ensures !TouchesRoutes(c)
    {
      if c in chains {
        ChainCmdsOnly(next, c);
      }
    }
    RouteStateEffect(k, next, chains + sets);
  }

  lemma SetupStates(k: Kernel, next: Inputs)
    ensures Do(k, Setup(next)) ==
              Do(Do(Do(Do(k, SharedRoutesUp(next)),
                  GATEWAY_INIT + (GatewayAppends(next.cfg, next.lan) + ZeroTierUp(next))),
                    SetRules(AllRules(next))), PolicyRouteCmds(Replace, next))
  {
    hide Do;
    hide SharedRoutesUp;
    hide PolicyRouteCmds;
    hide GatewayAppends;
    hide ZeroTierUp;
    var a, i, g, s, p := SharedRoutesUp(next), GATEWAY_INIT, GatewayAppends(next.cfg, next.lan) + ZeroTierUp(next),
                         SetRules(AllRules(next)), PolicyRouteCmds(Replace, next);
    assert i + (g + (s + p)) == ((i + g) + s) + p;
    DoAppend(k, a, i + (g + (s + p)));
    DoAppend(Do(k, a), (i + g) + s, p);
    DoAppend(Do(k, a), i + g, s);
  }
}
