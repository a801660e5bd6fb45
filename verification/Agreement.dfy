/** Routing and filtering agree for strict peers: what the rules and tables select, the strict chain
    hands back; and it hands back nothing but what a configured route covers. */
module Agreement {
  import opened Lists
  import opened Network
  import opened Models
  import opened Kernel
  import opened IpRules
  import opened StrictChains
  import opened GatewayChains
  import opened Routes
  import opened Generators
  import opened Effects
  import opened Convergence
  import opened Confinement

  // ---------------------------------------------------------------- premises

  ghost predicate FromAddress(p: Peer, a: Address) {
    exists s :: s in Sources(p) && Contains(s, a)
  }

  /** The address is the peer's own: no other enabled peer is authorized to use it. */
  ghost predicate OwnAddress(cfg: Config, peer: Peer, a: Address) {
    forall q :: q in cfg.peers && q.enabled && FromAddress(q, a) ==> q == peer
  }

  /** The table is that of an exit node or of the policy routes of some peer. */
  ghost predicate PeerTable(cfg: Config, table: nat) {
    table != 0 && exists p :: p in cfg.peers && (table == p.tableId || table == p.policyTableId)
  }

  /** One of the commands of the configuration installs this route. */
  ghost predicate Written(inp: Inputs, key: RouteKey, hop: Hop) {
    exists c ::
        c in SharedRoutesUp(inp) + PolicyRouteCmds(Replace, inp) && c.ReplaceRoute? && c.key == key && c.hop == hop
  }

  /** What stands in the tables of the peers is the configuration's own. Not all of it need be there. */
  ghost predicate TablesOwned(routes: map<RouteKey, Hop>, inp: Inputs) {
    forall key :: key in routes && PeerTable(inp.cfg, key.table) ==> Written(inp, key, routes[key])
  }

  /** The tables of the peers hold nothing foreign. */
  ghost predicate PrivateTables(cfg: Config, routes: map<RouteKey, Hop>) {
    forall key :: key in routes ==> !PeerTable(cfg, key.table)
  }

  // ---------------------------------------------------------------- what is configured

  ghost predicate ExitCovers(cfg: Config, peer: Peer, dst: Address, device: string) {
    && peer.exitNodeId != "" && peer.exitNodeId in ExitNodes(cfg.peers)
    && (exists d :: d in ExitPrefixes(ExitNodes(cfg.peers)[peer.exitNodeId]) && Contains(d, dst))
    && DeviceMatches(WG_DEVICE, device)
  }

  ghost predicate PolicyCovers(nets: seq<GatewayNet>, peer: Peer, dst: Address, device: string) {
    exists r :: r in peer.policyRoutes && Contains(r.dest, dst)
                && DeviceFor(r.gateway, nets) != "" && DeviceMatches(DeviceFor(r.gateway, nets), device)
  }

  /** A configured exit-node route, or policy route with a resolved gateway, covers the destination
      on this device. */
  ghost predicate AllowedEgress(cfg: Config, nets: seq<GatewayNet>, peer: Peer, p: Packet) {
    ExitCovers(cfg, peer, p.dst, p.outDev) || PolicyCovers(nets, peer, p.dst, p.outDev)
  }

  // ---------------------------------------------------------------- the strict chain

  lemma {:induction false} FirstMatchAppend(a: seq<FwRule>, b: seq<FwRule>, p: Packet)
    ensures FirstMatch(a + b, p) == if FirstMatch(a, p).Some? then FirstMatch(a, p) else FirstMatch(b, p)
  {
    if a == [] {
      assert a + b == b;
    } else {
      assert (a + b)[1..] == a[1..] + b;
      FirstMatchAppend(a[1..], b, p);
    }
  }

  /** First match through a flat map: if every part decides as q says or not at all, so does the whole. */
  lemma {:induction false} FirstInFlatMap<A>(f: A -> seq<FwRule>, xs: seq<A>, p: Packet, q: FwRule -> bool)
    requires forall x :: x in xs && FirstMatch(f(x), p).Some? ==> q(FirstMatch(f(x), p).value)
    ensures FirstMatch(FlatMap(f, xs), p).Some? ==> q(FirstMatch(FlatMap(f, xs), p).value)
    ensures (exists x :: x in xs && FirstMatch(f(x), p).Some?) ==> FirstMatch(FlatMap(f, xs), p).Some?
  {
    if xs != [] {
      var init, last := xs[..|xs| - 1], xs[|xs| - 1];
      assert xs == init + [last];
      FirstInFlatMap(f, init, p, q);
      FirstMatchAppend(FlatMap(f, init), f(last), p);
    }
  }

  lemma {:induction false} OfFamilyFirst(rules: seq<FwRule>, p: Packet)
    requires forall r :: r in rules ==> IsStrictRule(r)
    ensures FirstMatch(OfFamily(rules, p.src.family), p) == FirstMatch(rules, p)
  {
    if rules != [] {
      var init, r := rules[..|rules| - 1], rules[|rules| - 1];
      assert rules == init + [r];
      assert r in rules;
      OfFamilyFirst(init, p);
      FirstMatchAppend(init, [r], p);
      FirstMatchAppend(OfFamily(init, p.src.family), [r], p);
      if FamilyOf(r) != p.src.family {
        assert !Matches(r, p);
        assert [r][1..] == [];
        assert OfFamily(init, p.src.family) + [] == OfFamily(init, p.src.family);
      }
    }
  }

  lemma ExitAllowsMatch(cfg: Config, peer: Peer, src: Prefix, p: Packet)
    requires peer.exitNodeId != "" && peer.exitNodeId in ExitNodes(cfg.peers)
    requires Contains(src, p.src) && p.dst.family == p.src.family
    ensures var rules := ExitAllows(ExitNodes(cfg.peers)[peer.exitNodeId], src);
            && (FirstMatch(rules, p).Some? <==> ExitCovers(cfg, peer, p.dst, p.outDev))
            && (forall r :: r in rules ==> r.FwRule? && r.target == Return)
  {
    hide FlatMap;
    hide ExitNodes;
    hide NetworkOf;
    var exit := ExitNodes(cfg.peers)[peer.exitNodeId];
    var rules := ExitAllows(exit, src);
    if exit.exitAllowAll {
      assert Contains(DefaultRoute(src.family), p.dst) <==>
          exists d :: d in ExitPrefixes(exit) && Contains(d, p.dst) by {
        assert ExitPrefixes(exit) == [DefaultRoute(V4), DefaultRoute(V6)];
      }
    } else {
      forall r {
        InFlatMap(ExitAllow(src), exit.exitRoutes, r);
      }
      if ExitCovers(cfg, peer, p.dst, p.outDev) {
        var d :| d in exit.exitRoutes && Contains(d, p.dst);
        var r := StrictAllow(src, d, WG_DEVICE);
        assert r in ExitAllow(src)(d);
        assert r in rules && Matches(r, p);
      }
      if FirstMatch(rules, p).Some? {
        var r := FirstMatch(rules, p).value;
        var d :| d in exit.exitRoutes && r in ExitAllow(src)(d);
      }
    }
  }

  lemma PolicyAllowsMatch(nets: seq<GatewayNet>, peer: Peer, src: Prefix, p: Packet)
    requires Contains(src, p.src) && p.dst.family == p.src.family
    ensures var rules := FlatMap(PolicyAllow(src, nets), peer.policyRoutes);
            && (FirstMatch(rules, p).Some? <==> PolicyCovers(nets, peer, p.dst, p.outDev))
            && (forall r :: r in rules ==> r.FwRule? && r.target == Return)
  {
    hide FlatMap;
    hide NetworkOf;
    hide DeviceFor;
    var f := PolicyAllow(src, nets);
    var rules := FlatMap(f, peer.policyRoutes);
    forall r {
      InFlatMap(f, peer.policyRoutes, r);
    }
    if PolicyCovers(nets, peer, p.dst, p.outDev) {
      var x :| x in peer.policyRoutes && Contains(x.dest, p.dst)
               && DeviceFor(x.gateway, nets) != "" && DeviceMatches(DeviceFor(x.gateway, nets), p.outDev);
      var r := StrictAllow(src, x.dest, DeviceFor(x.gateway, nets));
      assert r in f(x);
      assert r in rules && Matches(r, p);
    }
    if FirstMatch(rules, p).Some? {
      var r := FirstMatch(rules, p).value;
      var x :| x in peer.policyRoutes && r in f(x);
    }
  }

  /** The decision of one strict rule: RETURN exactly for allowed egress, REJECT otherwise. */
  ghost function Decides(allowed: bool): FwRule -> bool {
    (r: FwRule) => r.FwRule? && (r.target == Return || r.target == Reject) && (r.target == Return <==> allowed)
  }

  /** The block of a source that contains the packet always decides. */
  lemma SourceDecides(cfg: Config, nets: seq<GatewayNet>, peer: Peer, src: Prefix, p: Packet)
    requires Contains(src, p.src) && p.dst.family == p.src.family
    ensures var first := FirstMatch(StrictSourceRules(peer, ExitNodes(cfg.peers), nets, src), p);
            first.Some? && Decides(AllowedEgress(cfg, nets, peer, p))(first.value)
  {
    var exits := ExitNodes(cfg.peers);
    var a := if peer.exitNodeId != "" && peer.exitNodeId in exits then ExitAllows(exits[peer.exitNodeId], src) else [];
    var b := FlatMap(PolicyAllow(src, nets), peer.policyRoutes);
    if peer.exitNodeId != "" && peer.exitNodeId in exits {
      ExitAllowsMatch(cfg, peer, src, p);
    }
    PolicyAllowsMatch(nets, peer, src, p);
    hide FlatMap;
    hide ExitNodes;
    hide ExitAllows;
    hide PolicyCovers;
    FirstMatchAppend(a, b, p);
    FirstMatchAppend(a + b, [StrictReject(src)], p);
    assert Matches(StrictReject(src), p);
    assert FirstMatch([StrictReject(src)], p) == Some(StrictReject(src));
  }

  /** The block of a source that does not contain the packet never matches. */
  lemma OtherSource(peer: Peer, exits: map<string, Peer>, nets: seq<GatewayNet>, src: Prefix, p: Packet)
    requires !Contains(src, p.src)
    ensures FirstMatch(StrictSourceRules(peer, exits, nets, src), p) == None
  {
    var rules := StrictSourceRules(peer, exits, nets, src);
    forall r | r in rules
      ensures r.FwRule? && !Matches(r, p)
    {
      StrictSourceShape(peer, exits, nets, src, r);
    }
  }

  lemma PeerDecides(cfg: Config, nets: seq<GatewayNet>, peer: Peer, p: Packet)
    requires peer.enabled && peer.strict && FromAddress(peer, p.src) && p.dst.family == p.src.family
    ensures var first := FirstMatch(StrictPeerRules(ExitNodes(cfg.peers), nets)(peer), p);
            first.Some? && Decides(AllowedEgress(cfg, nets, peer, p))(first.value)
  {
    hide FlatMap;
    hide Distinct;
    hide StrictSourceRules;
    hide ExitNodes;
    hide AllowedEgress;
    var exits := ExitNodes(cfg.peers);
    var f := StrictSourceRulesOf(peer, exits, nets);
    var q := Decides(AllowedEgress(cfg, nets, peer, p));
    forall s | s in Sources(peer)
      ensures Contains(s, p.src) ==> FirstMatch(f(s), p).Some? && q(FirstMatch(f(s), p).value)
      ensures !Contains(s, p.src) ==> FirstMatch(f(s), p) == None
    {
      if Contains(s, p.src) {
        SourceDecides(cfg, nets, peer, s, p);
      } else {
        OtherSource(peer, exits, nets, s, p);
      }
    }
    FirstInFlatMap(f, Sources(peer), p, q);
  }

  lemma OtherPeer(cfg: Config, nets: seq<GatewayNet>, peer: Peer, p: Packet)
    requires peer.enabled && peer.strict ==> !FromAddress(peer, p.src)
    ensures FirstMatch(StrictPeerRules(ExitNodes(cfg.peers), nets)(peer), p) == None
  {
    if peer.enabled && peer.strict {
      hide FlatMap;
      hide Distinct;
      hide StrictSourceRules;
      var f := StrictSourceRulesOf(peer, ExitNodes(cfg.peers), nets);
      forall s | s in Sources(peer)
        ensures FirstMatch(f(s), p) == None
      {
        OtherSource(peer, ExitNodes(cfg.peers), nets, s, p);
      }
      FirstInFlatMap(f, Sources(peer), p, (r: FwRule) => false);
    }
  }

  /** The strict chain decides every packet of a strict peer whose sources no other peer shares:
      RETURN if and only if a configured route covers the destination on the outgoing device, and
      REJECT otherwise. Unresolved and ambiguous gateways cover nothing. */
  lemma StrictChainIsExact(cfg: Config, nets: seq<GatewayNet>, peer: Peer, p: Packet)
    requires peer in cfg.peers && peer.enabled && peer.strict
    requires FromAddress(peer, p.src) && OwnAddress(cfg, peer, p.src) && p.dst.family == p.src.family
    ensures var first := FirstMatch(OfFamily(StrictEgress(cfg, nets), p.src.family), p);
            && first.Some? && first.value.FwRule?
            && (first.value.target == Return <==> AllowedEgress(cfg, nets, peer, p))
            && (first.value.target == Reject <==> !AllowedEgress(cfg, nets, peer, p))
  {
    StrictEgressShape(cfg, nets);
    OfFamilyFirst(StrictEgress(cfg, nets), p);
    hide FlatMap;
    hide OfFamily;
    hide ExitNodes;
    hide AllowedEgress;
    hide FromAddress;
    var f := StrictPeerRules(ExitNodes(cfg.peers), nets);
    var q := Decides(AllowedEgress(cfg, nets, peer, p));
    forall x | x in cfg.peers
      ensures FirstMatch(f(x), p).Some? ==> q(FirstMatch(f(x), p).value)
    {
      if x == peer {
        PeerDecides(cfg, nets, peer, p);
      } else {
        OtherPeer(cfg, nets, x, p);
      }
    }
    PeerDecides(cfg, nets, peer, p);
    FirstInFlatMap(f, cfg.peers, p, q);
  }

  // ---------------------------------------------------------------- the routing tables

  lemma TableOfPeer(cfg: Config, peer: Peer, p: Packet, b: FamilyRule)
    requires peer in cfg.peers && peer.enabled && FromAddress(peer, p.src) && OwnAddress(cfg, peer, p.src)
    requires b in PeerRuleBodies(cfg) && BodyMatches(b.body, p) && b.body.action.Lookup?
    ensures || (peer.exitNodeId != "" && peer.exitNodeId in ExitNodes(cfg.peers)
                && b.body.action.table == ExitNodes(cfg.peers)[peer.exitNodeId].tableId)
            || (peer.policyTableId > 0 && b.body.action.table == peer.policyTableId)
  {
    PeerRuleOrigin(cfg, b);
    hide PeerRuleBodies;
    hide ExitNodes;
    var q, s :| q in cfg.peers && q.enabled && s in Sources(q) && b in SourceRules(q, ExitNodes(cfg.peers), s);
    assert b.body.src == s;
    assert FromAddress(q, p.src);
    assert q == peer;
  }

  /** A route in an exit node's table is that exit node's own. */
  lemma ExitTableRoute(inp: Inputs, exit: Peer, key: RouteKey, hop: Hop)
    requires Valid(inp) && GatewayTablesApart(inp.cfg) && Written(inp, key, hop)
    requires exit in ExitNodes(inp.cfg.peers).Values && key.table == exit.tableId
    ensures hop == WG_HOP && key.dest in ExitPrefixes(exit)
  {
    ExitNodesSound(inp.cfg.peers);
    hide Valid;
    hide ExitNodes;
    hide GatewayTablesApart;
    var c := Writer(inp, key, hop);
    if c in PolicyRouteCmds(Replace, inp) {
      var q, r := PolicyOrigin(inp, c);
      OwnersApart(inp, exit, q);
    } else if c in GatewayRouteCmds(Replace, inp.cfg) {
      var g := GatewayOrigin(inp, c);
      GatewayApart(inp.cfg, g, exit);
    } else {
      ExitCmdMember(Replace, inp, c);
      var q, d :| q in ExitNodes(inp.cfg.peers).Values && d in ExitPrefixes(q) && c in ExitCmd(Replace, q.tableId)(d);
      SameExit(inp, q, exit);
    }
  }

  lemma Writer(inp: Inputs, key: RouteKey, hop: Hop) returns (c: Cmd)
    requires Written(inp, key, hop)
    ensures c.ReplaceRoute? && c.key == key && c.hop == hop
    ensures c in PolicyRouteCmds(Replace, inp) || c in GatewayRouteCmds(Replace, inp.cfg)
            || c in ExitRouteCmds(Replace, inp.exitOrder)
  {
    hide PolicyRouteCmds;
    hide GatewayRouteCmds;
    hide ExitRouteCmds;
    c :| c in SharedRoutesUp(inp) + PolicyRouteCmds(Replace, inp) && c.ReplaceRoute? && c.key == key && c.hop == hop;
  }

  lemma GatewayApart(cfg: Config, g: Gateway, p: Peer)
    requires GatewayTablesApart(cfg) && g in cfg.gateways && p in cfg.peers && g.tableId != 0
    ensures g.tableId != p.tableId && g.tableId != p.policyTableId
  {
  }

  lemma SameExit(inp: Inputs, q: Peer, exit: Peer)
    requires Valid(inp) && q in inp.cfg.peers && exit in inp.cfg.peers && q.tableId == exit.tableId != 0
    ensures q == exit
  {
    TableOwner(inp.cfg.peers, q, exit);
  }

  lemma OwnersApart(inp: Inputs, p: Peer, q: Peer)
    requires Valid(inp) && p in inp.cfg.peers && q in inp.cfg.peers && p.tableId != 0
    ensures p.tableId != q.policyTableId
  {
    var peers := inp.cfg.peers;
    var i :| 0 <= i < |peers| && peers[i] == p;
    var j :| 0 <= j < |peers| && peers[j] == q;
  }

  lemma PolicyOwner(inp: Inputs, p: Peer, q: Peer)
    requires Valid(inp) && p in inp.cfg.peers && q in inp.cfg.peers && p.policyTableId == q.policyTableId != 0
    ensures p == q
  {
    var peers := inp.cfg.peers;
    var i :| 0 <= i < |peers| && peers[i] == p;
    var j :| 0 <= j < |peers| && peers[j] == q;
    assert i == j;
  }

  lemma PolicyOrigin(inp: Inputs, c: Cmd) returns (q: Peer, r: PolicyRoute)
    requires c in PolicyRouteCmds(Replace, inp) && c.ReplaceRoute?
    ensures q in inp.cfg.peers && r in q.policyRoutes && c.key == RouteKey(q.policyTableId, r.dest)
            && q.policyTableId != 0
    ensures q.strict ==> c.hop.device == DeviceFor(r.gateway, inp.nets) != ""
  {
    hide FlatMap;
    hide DeviceFor;
    InFlatMap(PolicyPeerCmds(Replace, inp.nets), inp.cfg.peers, c);
    q :| q in inp.cfg.peers && c in PolicyPeerCmds(Replace, inp.nets)(q);
    InFlatMap(PolicyCmd(Replace, q, inp.nets), q.policyRoutes, c);
    r :| r in q.policyRoutes && c in PolicyCmd(Replace, q, inp.nets)(r);
  }

  lemma GatewayOrigin(inp: Inputs, c: Cmd) returns (g: Gateway)
    requires c in GatewayRouteCmds(Replace, inp.cfg) && c.ReplaceRoute?
    ensures g in inp.cfg.gateways && g.tableId != 0 && c.key.table == g.tableId
  {
    hide FlatMap;
    InFlatMap(GatewayRoutesOf(Replace), inp.cfg.gateways, c);
    g :| g in inp.cfg.gateways && c in GatewayRoutesOf(Replace)(g);
  }

  /** A route in a peer's policy table comes from one of its policy routes. */
  lemma PolicyTableRoute(inp: Inputs, peer: Peer, key: RouteKey, hop: Hop) returns (r: PolicyRoute)
    requires Valid(inp) && GatewayTablesApart(inp.cfg) && Written(inp, key, hop)
    requires peer in inp.cfg.peers && peer.strict && key.table == peer.policyTableId != 0
    ensures r in peer.policyRoutes && key.dest == r.dest && hop.device == DeviceFor(r.gateway, inp.nets) != ""
  {
    ExitNodesSound(inp.cfg.peers);
    hide Valid;
    hide ExitNodes;
    hide DeviceFor;
    hide GatewayTablesApart;
    var c := Writer(inp, key, hop);
    if c in PolicyRouteCmds(Replace, inp) {
      var q, x := PolicyOrigin(inp, c);
      PolicyOwner(inp, peer, q);
      r := x;
    } else if c in GatewayRouteCmds(Replace, inp.cfg) {
      var g := GatewayOrigin(inp, c);
      GatewayApart(inp.cfg, g, peer);
      assert false;
    } else {
      ExitCmdMember(Replace, inp, c);
      var q, d :| q in ExitNodes(inp.cfg.peers).Values && d in ExitPrefixes(q) && c in ExitCmd(Replace, q.tableId)(d);
      OwnersApart(inp, q, peer);
      assert false;
    }
  }

  // ---------------------------------------------------------------- evaluation

  /** A decision is that of some slot at or after the starting priority. */
  lemma {:induction false} DecisionSlot(k: Kernel, p: Packet, n: nat)
    ensures var d := Decide(k, p, n);
            d.Routed? ==>
                d.priority >= n && SlotDecision(k, d.priority, At(k.rules, Slot(p.src.family, d.priority)), p) == d
    decreases if n > LAST_PRIORITY then 0 else LAST_PRIORITY + 1 - n
  {
    if n <= LAST_PRIORITY {
      var d := SlotDecision(k, n, At(k.rules, Slot(p.src.family, n)), p);
      if d.NoRule? {
        DecisionSlot(k, p, n + 1);
      } else {
        SlotPriority(k, n, At(k.rules, Slot(p.src.family, n)), p);
      }
    }
  }

  lemma {:induction false} SlotPriority(k: Kernel, n: nat, bodies: seq<RuleBody>, p: Packet)
    ensures var d := SlotDecision(k, n, bodies, p);
            d.Routed? ==> d.priority == n
  {
    hide TableLookup;
    if bodies != [] {
      SlotPriority(k, n, bodies[1..], p);
    }
  }

  /** A slot with one rule that routes: the rule matches, and the route is a hit of its table. */
  lemma OneRuleRoutes(k: Kernel, n: nat, b: RuleBody, p: Packet)
    requires SlotDecision(k, n, [b], p).Routed?
    ensures var d := SlotDecision(k, n, [b], p);
            && BodyMatches(b, p) && b.action == Lookup(d.table)
            && d.key in k.routes && d.key.table == d.table && Contains(d.key.dest, p.dst) && d.hop == k.routes[d.key]
  {
    assert [b][1..] == [];
    if b.action.Lookup? {
      LookupHits(k.routes, b.action.table, p.dst, Bits(p.dst.family));
    }
    hide TableLookup;
  }

  /** Routing and filtering agree: whatever device the rules and tables select for a packet of a
      strict peer, a configured route of that peer allows it, so the strict chain hands it back. Routes
      may be missing from the tables of the peers, as long as those that are there are its own. */
  lemma RoutedIsAllowed(k: Kernel, inp: Inputs, peer: Peer, p: Packet)
    requires PeerBlockInstalled(k, inp.cfg) && NoReservedTables(inp.cfg) && TablesOwned(k.routes, inp)
    requires Valid(inp) && GatewayTablesApart(inp.cfg)
    requires peer in inp.cfg.peers && peer.enabled && peer.strict
    requires FromAddress(peer, p.src) && OwnAddress(inp.cfg, peer, p.src) && p.dst.family == p.src.family
    ensures var d := Decide(k, p, 1);
            d.Routed? ==>
              && AllowedEgress(inp.cfg, inp.nets, peer, p.(outDev := d.hop.device))
              && var first := FirstMatch(OfFamily(StrictEgress(inp.cfg, inp.nets), p.src.family),
                 p.(outDev := d.hop.device));
                 first.Some? && first.value.FwRule? && first.value.target == Return
  {
    hide Decide;
    hide TablesOwned;
    var d := Decide(k, p, 1);
    if d.Routed? {
      var b := SelectedRule(k, inp.cfg, peer, p);
      HitIsAllowed(k, inp, peer, p, d, b);
      StrictChainIsExact(inp.cfg, inp.nets, peer, p.(outDev := d.hop.device));
    }
  }

  /** The rule of the peer block that made the decision. */
  lemma SelectedRule(k: Kernel, cfg: Config, peer: Peer, p: Packet) returns (b: FamilyRule)
    requires PeerBlockInstalled(k, cfg) && NoReservedTables(cfg) && |PeerRules(cfg)| <= 6000
    requires peer in cfg.peers && peer.enabled && peer.strict && FromAddress(peer, p.src)
    requires Decide(k, p, 1).Routed?
    ensures var d := Decide(k, p, 1);
            && b in PeerRuleBodies(cfg) && BodyMatches(b.body, p) && b.body.action == Lookup(d.table)
            && d.key in k.routes && d.key.table == d.table && Contains(d.key.dest, p.dst) && d.hop == k.routes[d.key]
  {
    hide Decide;
    hide SlotDecision;
    var d := Decide(k, p, 1);
    BlockIsPrivate(k, cfg);
    StrictConfinement(k, cfg, peer, p);
    DecisionSlot(k, p, 1);
    var slot := Slot(p.src.family, d.priority);
    if slot !in k.rules {
      assert At(k.rules, slot) == [];
      EmptySlot(k, d.priority, p);
      assert false;
    }
    var x :| x in PeerRules(cfg) && x.slot == slot;
    var i :| 0 <= i < |PeerRules(cfg)| && PeerRules(cfg)[i] == x;
    b := PeerRuleBodies(cfg)[i];
    OneRuleRoutes(k, d.priority, b.body, p);
  }

  lemma EmptySlot(k: Kernel, n: nat, p: Packet)
    ensures SlotDecision(k, n, [], p) == NoRule
  {
  }

  lemma HitIsAllowed(k: Kernel, inp: Inputs, peer: Peer, p: Packet, d: Decision, b: FamilyRule)
    requires TablesOwned(k.routes, inp) && Valid(inp) && GatewayTablesApart(inp.cfg)
    requires peer in inp.cfg.peers && peer.enabled && peer.strict && FromAddress(peer, p.src)
             && OwnAddress(inp.cfg, peer, p.src)
    requires d.Routed? && b in PeerRuleBodies(inp.cfg) && BodyMatches(b.body, p) && b.body.action == Lookup(d.table)
    requires d.key in k.routes && d.key.table == d.table && Contains(d.key.dest, p.dst) && d.hop == k.routes[d.key]
    ensures AllowedEgress(inp.cfg, inp.nets, peer, p.(outDev := d.hop.device))
  {
    hide Written;
    hide DeviceFor;
    hide Valid;
    hide GatewayTablesApart;
    hide OwnAddress;
    hide ExitCovers;
    hide PolicyCovers;
    hide Sources;
    hide Contains;
    TableOfPeer(inp.cfg, peer, p, b);
    hide PeerRuleBodies;
    ExitNodesSound(inp.cfg.peers);
    hide ExitNodes;
    var exits := ExitNodes(inp.cfg.peers);
    if peer.exitNodeId != "" && peer.exitNodeId in exits && d.table == exits[peer.exitNodeId].tableId {
      var exit := exits[peer.exitNodeId];
      assert exit in inp.cfg.peers && UsableExit(exit) && exit in exits.Values;
      assert PeerTable(inp.cfg, d.table);
      ExitTableRoute(inp, exit, d.key, d.hop);
      ExitHit(inp.cfg, peer, p.dst, d.key.dest);
    } else {
      assert PeerTable(inp.cfg, d.table);
      var r := PolicyTableRoute(inp, peer, d.key, d.hop);
      PolicyHit(inp.nets, peer, p.dst, d.hop.device, r);
    }
  }

  lemma ExitHit(cfg: Config, peer: Peer, dst: Address, dest: Prefix)
    requires var exits := ExitNodes(cfg.peers);
             peer.exitNodeId != "" && peer.exitNodeId in exits && dest in ExitPrefixes(exits[peer.exitNodeId])
                 && Contains(dest, dst)
    ensures ExitCovers(cfg, peer, dst, WG_DEVICE)
  {
  }

  lemma PolicyHit(nets: seq<GatewayNet>, peer: Peer, dst: Address, device: string, r: PolicyRoute)
    requires r in peer.policyRoutes && Contains(r.dest, dst) && device == DeviceFor(r.gateway, nets) != ""
    ensures PolicyCovers(nets, peer, dst, device)
  {
    hide Contains;
    hide DeviceFor;
    assert DeviceMatches(device, device);
  }

  /** Losing every gateway blocks a strict peer: without an exit node and with no gateway resolved,
      no packet is routed, and the strict chain rejects whatever arrives. */
  lemma UnresolvedBlocks(k: Kernel, inp: Inputs, peer: Peer, p: Packet)
    requires PeerBlockInstalled(k, inp.cfg) && NoReservedTables(inp.cfg) && TablesOwned(k.routes, inp)
    requires Valid(inp) && GatewayTablesApart(inp.cfg)
    requires peer in inp.cfg.peers && peer.enabled && peer.strict
    requires FromAddress(peer, p.src) && OwnAddress(inp.cfg, peer, p.src) && p.dst.family == p.src.family
    requires peer.exitNodeId == "" && forall r :: r in peer.policyRoutes ==> !Resolve(r.gateway, inp.nets).Resolved?
    ensures Decide(k, p, 1).Prohibited?
    ensures var first := FirstMatch(OfFamily(StrictEgress(inp.cfg, inp.nets), p.src.family), p);
            first.Some? && first.value.FwRule? && first.value.target == Reject
  {
    hide Decide;
    hide OfFamily;
    hide StrictEgress;
    hide TablesOwned;
    BlockIsPrivate(k, inp.cfg);
    StrictConfinement(k, inp.cfg, peer, p);
    RoutedIsAllowed(k, inp, peer, p);
    StrictChainIsExact(inp.cfg, inp.nets, peer, p);
  }
}
