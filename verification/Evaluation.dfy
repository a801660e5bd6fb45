/** Where the installed rules send a packet, block by block: which table is consulted first, what comes
    after it, and when a packet is rejected or goes on to the next block. */
module Evaluation {
  import opened Lists
  import opened Network
  import opened Models
  import opened Kernel
  import opened IpRules
  import opened Generators
  import opened Effects
  import opened Convergence
  import opened Confinement
  import opened Agreement
  import opened Uplinks

  // ---------------------------------------------------------------- a block of rules

  /** The table holds a route for the destination. */
  ghost predicate HasRoute(routes: map<RouteKey, Hop>, table: nat, dst: Address) {
    exists key :: key in routes && key.table == table && key.dest.length <= Bits(dst.family) && Contains(key.dest, dst)
  }

  /** What a list of rules does with a packet: a table has a route for it, a reject stops it, or it
      passes. */
  datatype Course = Looked(table: nat) | Stopped | Passed

  ghost function Walk(routes: map<RouteKey, Hop>, xs: seq<FamilyRule>, p: Packet): Course {
    if xs == [] then Passed
    else
      var x := xs[0];
      if x.family != p.src.family || !BodyMatches(x.body, p) then Walk(routes, xs[1..], p)
      else
        match x.body.action
        case Prohibit => Stopped
        case Lookup(table) => if HasRoute(routes, table, p.dst) then Looked(table) else Walk(routes, xs[1..], p)
  }

  /** A block is in place: each rule alone in its slot, and nothing else up to the next block. */
  ghost predicate InPlace(k: Kernel, base: nat, limit: nat, xs: seq<FamilyRule>) {
    && base + |xs| <= limit <= LAST_PRIORITY
    && forall f: Family, n: nat :: base <= n < limit ==>
         At(k.rules, Slot(f, n)) == if n < base + |xs| && xs[n - base].family == f then [xs[n - base].body] else []
  }

  /** The decision agrees with what the list does, at a priority of the block. */
  ghost predicate Follows(d: Decision, k: Kernel, p: Packet, o: Course, from: nat, limit: nat) {
    match o
    case Looked(table) => d.Routed? && d.table == table && from <= d.priority < limit
    case Stopped => d.Prohibited? && from <= d.priority < limit
    case Passed => d == Decide(k, p, limit)
  }

  lemma LookupFinds(routes: map<RouteKey, Hop>, table: nat, dst: Address)
    ensures TableLookup(routes, table, dst, Bits(dst.family)).Some? <==> HasRoute(routes, table, dst)
  {
    LookupHits(routes, table, dst, Bits(dst.family));
    hide TableLookup;
    var found := TableLookup(routes, table, dst, Bits(dst.family));
    if found.Some? {
      LookupLength(routes, table, dst, Bits(dst.family));
    }
    if key :| key in routes && key.table == table && key.dest.length <= Bits(dst.family) && Contains(key.dest, dst) {
      assert key == RouteKey(table, NetworkOf(dst, key.dest.length));
    }
  }

  lemma {:induction false} LookupLength(routes: map<RouteKey, Hop>, table: nat, dst: Address, length: nat)
    requires TableLookup(routes, table, dst, length).Some?
    ensures TableLookup(routes, table, dst, length).value.dest.length <= length
  {
    if RouteKey(table, NetworkOf(dst, length)) !in routes {
      LookupLength(routes, table, dst, length - 1);
    }
  }

  /** A slot with one rule. */
  lemma OneRule(k: Kernel, n: nat, b: RuleBody, p: Packet)
    ensures var d := SlotDecision(k, n, [b], p);
            if !BodyMatches(b, p) then d == NoRule
            else match b.action
                 case Prohibit => d == Prohibited(n)
                 case Lookup(table) =>
                   if HasRoute(k.routes, table, p.dst) then d.Routed? && d.priority == n && d.table == table
                   else d == NoRule
  {
    assert [b][1..] == [];
    if b.action.Lookup? {
      LookupFinds(k.routes, b.action.table, p.dst);
    }
    hide TableLookup;
    hide HasRoute;
  }

  lemma {:induction false} EmptySlots(k: Kernel, p: Packet, n: nat, limit: nat)
    requires n <= limit <= LAST_PRIORITY
    requires forall m: nat :: n <= m < limit ==> At(k.rules, Slot(p.src.family, m)) == []
    ensures Decide(k, p, n) == Decide(k, p, limit)
    decreases limit - n
  {
    if n < limit {
      EmptySlots(k, p, n + 1, limit);
    }
  }

  lemma RestInPlace(k: Kernel, base: nat, limit: nat, xs: seq<FamilyRule>)
    requires InPlace(k, base, limit, xs) && xs != []
    ensures InPlace(k, base + 1, limit, xs[1..])
  {
  }

  /** Evaluation through a block does what its list does. */
  lemma {:induction false} WalksBlock(k: Kernel, base: nat, limit: nat, xs: seq<FamilyRule>, p: Packet)
    requires InPlace(k, base, limit, xs)
    ensures Follows(Decide(k, p, base), k, p, Walk(k.routes, xs, p), base, limit)
    decreases |xs|
  {
    hide HasRoute;
    hide SlotDecision;
    hide BodyMatches;
    if xs == [] {
      EmptySlots(k, p, base, limit);
    } else {
      var slot := Slot(p.src.family, base);
      OneRule(k, base, xs[0].body, p);
      NoBodies(k, base, p);
      assert At(k.rules, slot) == if xs[0].family == p.src.family then [xs[0].body] else [];
      RestInPlace(k, base, limit, xs);
      hide InPlace;
      WalksBlock(k, base + 1, limit, xs[1..], p);
    }
  }

  lemma NoBodies(k: Kernel, n: nat, p: Packet)
    ensures SlotDecision(k, n, [], p) == NoRule
  {
  }

  lemma {:induction false} WalkAppend(routes: map<RouteKey, Hop>, a: seq<FamilyRule>, b: seq<FamilyRule>, p: Packet)
    ensures Walk(routes, a + b, p) == if Walk(routes, a, p).Passed? then Walk(routes, b, p) else Walk(routes, a, p)
    decreases |a|
  {
    hide HasRoute;
    hide BodyMatches;
    if a == [] {
      assert a + b == b;
    } else {
      assert (a + b)[0] == a[0] && (a + b)[1..] == a[1..] + b;
      WalkAppend(routes, a[1..], b, p);
    }
  }

  /** Through a flat map: if every part passes the packet or does o, so does the whole, and it does o if
      some part does. */
  lemma {:induction false} WalkFlatMap<A>(routes: map<RouteKey, Hop>, f: A -> seq<FamilyRule>, xs: seq<A>, p: Packet,
                                          o: Course)
    requires forall x :: x in xs ==> Walk(routes, f(x), p) == o || Walk(routes, f(x), p) == Passed
    ensures Walk(routes, FlatMap(f, xs), p) == o || Walk(routes, FlatMap(f, xs), p) == Passed
    ensures (exists x :: x in xs && Walk(routes, f(x), p) == o) ==> Walk(routes, FlatMap(f, xs), p) == o
  {
    hide Walk;
    if xs == [] {
      WalkNothing(routes, p);
    } else {
      var init, last := xs[..|xs| - 1], xs[|xs| - 1];
      assert xs == init + [last];
      WalkFlatMap(routes, f, init, p, o);
      WalkAppend(routes, FlatMap(f, init), f(last), p);
    }
  }

  lemma WalkNothing(routes: map<RouteKey, Hop>, p: Packet)
    ensures Walk(routes, [], p) == Passed
  {
  }

  // ---------------------------------------------------------------- the peer block

  /** The table of the peer's exit node, if it uses an enabled one that has a table. */
  ghost function ExitTable(cfg: Config, peer: Peer): Option<nat> {
    var exits := ExitNodes(cfg.peers);
    if peer.exitNodeId != "" && peer.exitNodeId in exits then Some(exits[peer.exitNodeId].tableId) else None
  }

  ghost function PolicyTable(peer: Peer): Option<nat> {
    if peer.policyRoutes != [] && peer.policyTableId > 0 then Some(peer.policyTableId) else None
  }

  ghost predicate Serves(routes: map<RouteKey, Hop>, table: Option<nat>, dst: Address) {
    table.Some? && HasRoute(routes, table.value, dst)
  }

  /** What a peer's settings ask for: its exit node if that has a route for the destination, else its
      policy routes if one covers it, else a reject if the peer is strict. */
  ghost function Asked(routes: map<RouteKey, Hop>, cfg: Config, peer: Peer, dst: Address): Course {
    if Serves(routes, ExitTable(cfg, peer), dst) then Looked(ExitTable(cfg, peer).value)
    else if Serves(routes, PolicyTable(peer), dst) then Looked(PolicyTable(peer).value)
    else if peer.strict then Stopped
    else Passed
  }

  lemma WalkSource(routes: map<RouteKey, Hop>, cfg: Config, peer: Peer, src: Prefix, p: Packet)
    ensures Walk(routes, SourceRules(peer, ExitNodes(cfg.peers), src), p) ==
            if Contains(src, p.src) then Asked(routes, cfg, peer, p.dst) else Passed
  {
    hide HasRoute;
    hide NetworkOf;
    hide ExitNodes;
    var exits := ExitNodes(cfg.peers);
    var a := if peer.exitNodeId != "" && peer.exitNodeId in exits
      then [FamilyRule(src.family, RuleBody(src, None, Lookup(exits[peer.exitNodeId].tableId)))] else [];
    var b := if peer.policyRoutes != [] && peer.policyTableId > 0
      then [FamilyRule(src.family, RuleBody(src, None, Lookup(peer.policyTableId)))] else [];
    var c := if peer.strict then [FamilyRule(src.family, RuleBody(src, None, Prohibit))] else [];
    WalkAppend(routes, a + b, c, p);
    WalkAppend(routes, a, b, p);
    if a != [] { WalkOne(routes, a[0], p); }
    if b != [] { WalkOne(routes, b[0], p); }
    if c != [] { WalkOne(routes, c[0], p); }
    assert SourceRules(peer, exits, src) == (a + b) + c;
  }

  lemma WalkOne(routes: map<RouteKey, Hop>, x: FamilyRule, p: Packet)
    ensures Walk(routes, [x], p) ==
            if x.family != p.src.family || !BodyMatches(x.body, p) then Passed
            else match x.body.action
                 case Prohibit => Stopped
                 case Lookup(table) => if HasRoute(routes, table, p.dst) then Looked(table) else Passed
  {
    assert [x][1..] == [];
    hide HasRoute;
  }

  lemma WalkPeer(routes: map<RouteKey, Hop>, cfg: Config, q: Peer, p: Packet)
    ensures Walk(routes, PeerBlock(ExitNodes(cfg.peers), q), p) ==
            if q.enabled && FromAddress(q, p.src) then Asked(routes, cfg, q, p.dst) else Passed
  {
    hide Walk;
    hide SourceRules;
    hide Asked;
    hide FlatMap;
    hide Distinct;
    hide Contains;
    WalkNothing(routes, p);
    if q.enabled {
      var f := SourceRulesOf(q, ExitNodes(cfg.peers));
      forall s | s in Sources(q)
        ensures Walk(routes, f(s), p) == if Contains(s, p.src) then Asked(routes, cfg, q, p.dst) else Passed
      {
        WalkSource(routes, cfg, q, s, p);
      }
      WalkFlatMap(routes, f, Sources(q), p, Asked(routes, cfg, q, p.dst));
      if !FromAddress(q, p.src) {
        WalkFlatMap(routes, f, Sources(q), p, Passed);
      }
    }
  }

  /** The list of the peer block, on a packet whose source is one peer's alone. */
  lemma WalkPeers(routes: map<RouteKey, Hop>, cfg: Config, peer: Peer, p: Packet)
    requires peer in cfg.peers && peer.enabled && FromAddress(peer, p.src) && OwnAddress(cfg, peer, p.src)
    ensures Walk(routes, PeerRuleBodies(cfg), p) == Asked(routes, cfg, peer, p.dst)
  {
    hide Walk;
    hide Asked;
    hide FlatMap;
    hide PeerBlock;
    hide FromAddress;
    hide ExitNodes;
    var f := PeerBlocks(ExitNodes(cfg.peers));
    forall q | q in cfg.peers
      ensures Walk(routes, f(q), p) == if q == peer then Asked(routes, cfg, peer, p.dst) else Passed
    {
      WalkPeer(routes, cfg, q, p);
    }
    WalkFlatMap(routes, f, cfg.peers, p, Asked(routes, cfg, peer, p.dst));
  }

  lemma PeerSlot(k: Kernel, cfg: Config, f: Family, n: nat)
    requires PeerBlockInstalled(k, cfg) && |PeerRules(cfg)| <= 6000 && PEER_BASE <= n < DEVICE_BASE
    ensures var xs := PeerRuleBodies(cfg);
            At(k.rules, Slot(f, n)) ==
            if n < PEER_BASE + |xs| && xs[n - PEER_BASE].family == f then [xs[n - PEER_BASE].body] else []
  {
    hide PeerRuleBodies;
    var xs := PeerRuleBodies(cfg);
    if n < PEER_BASE + |xs| && xs[n - PEER_BASE].family == f {
      var x := PeerRules(cfg)[n - PEER_BASE];
      assert x in PeerRules(cfg) && x.slot == Slot(f, n);
    } else if Slot(f, n) in k.rules {
      var x :| x in PeerRules(cfg) && x.slot == Slot(f, n);
      NumberedAt(PEER_BASE, xs, x);
    }
  }

  lemma PeersInPlace(k: Kernel, cfg: Config)
    requires PeerBlockInstalled(k, cfg) && |PeerRules(cfg)| <= 6000
    ensures InPlace(k, PEER_BASE, DEVICE_BASE, PeerRuleBodies(cfg))
  {
    hide PeerRuleBodies;
    hide PeerBlockInstalled;
    hide At;
    var xs := PeerRuleBodies(cfg);
    forall f: Family, n: nat | PEER_BASE <= n < DEVICE_BASE
      ensures At(k.rules, Slot(f, n)) ==
              if n < PEER_BASE + |xs| && xs[n - PEER_BASE].family == f then [xs[n - PEER_BASE].body] else []
    {
      PeerSlot(k, cfg, f, n);
    }
  }

  lemma BelowPeers(k: Kernel, cfg: Config, p: Packet)
    requires PeerBlockInstalled(k, cfg)
    ensures Decide(k, p, 1) == Decide(k, p, PEER_BASE)
  {
    forall m: nat | 1 <= m < PEER_BASE
      ensures At(k.rules, Slot(p.src.family, m)) == []
    {
    }
    EmptySlots(k, p, 1, PEER_BASE);
  }

  /** The peer block on a packet whose source address no other enabled peer is authorized to use. It is
      routed in the exit node's table if that has a route for the destination; otherwise in the table of
      the peer's policy routes if that has one; otherwise it is rejected if the peer is strict, and goes
      on to the device rules if it is not. */
  lemma PeerLookups(k: Kernel, cfg: Config, peer: Peer, p: Packet)
    requires PeerBlockInstalled(k, cfg) && |PeerRules(cfg)| <= 6000
    requires peer in cfg.peers && peer.enabled && FromAddress(peer, p.src) && OwnAddress(cfg, peer, p.src)
    ensures var d := Decide(k, p, 1);
            var exits := ExitNodes(cfg.peers);
            var exit := peer.exitNodeId != "" && peer.exitNodeId in exits
                        && HasRoute(k.routes, exits[peer.exitNodeId].tableId, p.dst);
            var policy := peer.policyRoutes != [] && peer.policyTableId > 0
                && HasRoute(k.routes, peer.policyTableId, p.dst);
            && (exit ==>
                  d.Routed? && d.table == exits[peer.exitNodeId].tableId && PEER_BASE <= d.priority < DEVICE_BASE)
            && (!exit && policy ==> d.Routed? && d.table == peer.policyTableId && PEER_BASE <= d.priority < DEVICE_BASE)
            && (!exit && !policy && peer.strict ==> d.Prohibited? && PEER_BASE <= d.priority < DEVICE_BASE)
            && (!exit && !policy && !peer.strict ==> d == Decide(k, p, DEVICE_BASE))
  {
    hide HasRoute;
    hide Walk;
    hide Decide;
    hide FromAddress;
    hide PeerRuleBodies;
    hide ExitNodes;
    BelowPeers(k, cfg, p);
    PeersInPlace(k, cfg);
    WalksBlock(k, PEER_BASE, DEVICE_BASE, PeerRuleBodies(cfg), p);
    WalkPeers(k.routes, cfg, peer, p);
  }

  // ---------------------------------------------------------------- the other blocks

  /** One slot within a block of a settled kernel. */
  lemma SlotInPlace(k: Kernel, inp: Inputs, rules: map<Slot, seq<RuleBody>>, base: nat, limit: nat, xs: seq<FamilyRule>,
                    f: Family, n: nat)
    requires Settled(k, inp, rules) && 1 <= base <= n < limit <= MAIN_PRIORITY
    requires forall x :: x in Number(base, xs) ==> x in AllRules(inp)
    requires forall x :: x in AllRules(inp) && base <= x.slot.priority < limit ==> x in Number(base, xs)
    ensures At(k.rules, Slot(f, n)) == if n < base + |xs| && xs[n - base].family == f then [xs[n - base].body] else []
  {
    hide Settled;
    hide AllRules;
    hide At;
    if n < base + |xs| && xs[n - base].family == f {
      var x := Number(base, xs)[n - base];
      assert x in Number(base, xs) && x.slot == Slot(f, n);
      Placed(k, inp, rules, x);
    } else if At(k.rules, Slot(f, n)) != [] {
      Owner(k, inp, rules, Slot(f, n));
      var x :| x in AllRules(inp) && x.slot == Slot(f, n);
      NumberedAt(base, xs, x);
    }
  }

  lemma NumberedAt(base: nat, xs: seq<FamilyRule>, x: IpRule)
    requires x in Number(base, xs)
    ensures base <= x.slot.priority < base + |xs| && xs[x.slot.priority - base].family == x.slot.family
  {
  }

  /** A block of a settled kernel is in place. */
  lemma BlockInPlace(k: Kernel, inp: Inputs, rules: map<Slot, seq<RuleBody>>, base: nat, limit: nat,
                     xs: seq<FamilyRule>)
    requires Settled(k, inp, rules) && 1 <= base && base + |xs| <= limit <= MAIN_PRIORITY
    requires forall x :: x in Number(base, xs) ==> x in AllRules(inp)
    requires forall x :: x in AllRules(inp) && base <= x.slot.priority < limit ==> x in Number(base, xs)
    ensures InPlace(k, base, limit, xs)
  {
    hide Settled;
    hide AllRules;
    hide At;
    hide Number;
    forall f: Family, n: nat | base <= n < limit
      ensures At(k.rules, Slot(f, n)) == if n < base + |xs| && xs[n - base].family == f then [xs[n - base].body] else []
    {
      SlotInPlace(k, inp, rules, base, limit, xs, f, n);
    }
  }

  ghost function DeviceBodies(cfg: Config): seq<FamilyRule> {
    FlatMap(DevicePeerRules(GatewayInterfaces(cfg.gateways)), cfg.peers)
  }

  ghost function LocalBodies(inp: Inputs): seq<FamilyRule> {
    FlatMap(LanPeerRules(inp.lan), inp.cfg.peers) + FlatMap(LanDeviceRules(inp.lan), inp.cfg.peers)
  }

  ghost function GatewayBodies(cfg: Config): seq<FamilyRule> {
    FlatMap(GatewayPeerRules(GatewayInterfaces(cfg.gateways)), cfg.peers)
  }

  /** In which range the priority of a rule lies. */
  lemma Ranges(inp: Inputs, x: IpRule)
    requires WithinGaps(inp) && |GatewayRules(inp.cfg)| <= MAIN_PRIORITY - GATEWAY_BASE
    ensures x in PeerRules(inp.cfg) ==> PEER_BASE <= x.slot.priority < DEVICE_BASE
    ensures x in DeviceRules(inp.cfg) ==> DEVICE_BASE <= x.slot.priority < LOCAL_BASE
    ensures x in LocalRules(inp.cfg, inp.lan) ==> LOCAL_BASE <= x.slot.priority < GATEWAY_BASE
    ensures x in GatewayRules(inp.cfg) ==> GATEWAY_BASE <= x.slot.priority < MAIN_PRIORITY
  {
    hide FlatMap;
    InNumber(PEER_BASE, PeerRuleBodies(inp.cfg), x);
    InNumber(DEVICE_BASE, DeviceBodies(inp.cfg), x);
    InNumber(LOCAL_BASE, LocalBodies(inp), x);
    InNumber(GATEWAY_BASE, GatewayBodies(inp.cfg), x);
  }

  lemma InNumber(base: nat, xs: seq<FamilyRule>, x: IpRule)
    ensures x in Number(base, xs) ==> base <= x.slot.priority < base + |xs|
  {
  }

  lemma AllBlocks(inp: Inputs, x: IpRule)
    ensures x in AllRules(inp) <==>
              x in PeerRules(inp.cfg) || x in DeviceRules(inp.cfg) || x in LocalRules(inp.cfg, inp.lan)
                  || x in GatewayRules(inp.cfg)
  {
    hide PeerRules;
    hide DeviceRules;
    hide LocalRules;
    hide GatewayRules;
  }

  lemma BlocksInPlace(k: Kernel, inp: Inputs, rules: map<Slot, seq<RuleBody>>)
    requires Settled(k, inp, rules)
    ensures InPlace(k, PEER_BASE, DEVICE_BASE, PeerRuleBodies(inp.cfg))
    ensures InPlace(k, DEVICE_BASE, LOCAL_BASE, DeviceBodies(inp.cfg))
    ensures InPlace(k, LOCAL_BASE, GATEWAY_BASE, LocalBodies(inp))
    ensures InPlace(k, GATEWAY_BASE, MAIN_PRIORITY, GatewayBodies(inp.cfg))
  {
    hide InPlace;
    hide FlatMap;
    hide AllRules;
    hide RuleState;
    forall x
      ensures x in PeerRules(inp.cfg) ==> PEER_BASE <= x.slot.priority < DEVICE_BASE
      ensures x in DeviceRules(inp.cfg) ==> DEVICE_BASE <= x.slot.priority < LOCAL_BASE
      ensures x in LocalRules(inp.cfg, inp.lan) ==> LOCAL_BASE <= x.slot.priority < GATEWAY_BASE
      ensures x in GatewayRules(inp.cfg) ==> GATEWAY_BASE <= x.slot.priority < MAIN_PRIORITY
      ensures x in AllRules(inp) <==>
                x in PeerRules(inp.cfg) || x in DeviceRules(inp.cfg) || x in LocalRules(inp.cfg, inp.lan)
                || x in GatewayRules(inp.cfg)
    {
      Ranges(inp, x);
      AllBlocks(inp, x);
    }
    BlockInPlace(k, inp, rules, PEER_BASE, DEVICE_BASE, PeerRuleBodies(inp.cfg));
    BlockInPlace(k, inp, rules, DEVICE_BASE, LOCAL_BASE, DeviceBodies(inp.cfg));
    BlockInPlace(k, inp, rules, LOCAL_BASE, GATEWAY_BASE, LocalBodies(inp));
    BlockInPlace(k, inp, rules, GATEWAY_BASE, MAIN_PRIORITY, GatewayBodies(inp.cfg));
  }

  // ---------------------------------------------------------------- device rules

  /** What a lookup with a reject behind it does. */
  ghost function LookupOrStop(routes: map<RouteKey, Hop>, table: nat, dst: Address): Course {
    if HasRoute(routes, table, dst) then Looked(table) else Stopped
  }

  ghost function LookupOrPass(routes: map<RouteKey, Hop>, table: nat, dst: Address): Course {
    if HasRoute(routes, table, dst) then Looked(table) else Passed
  }

  lemma WalkThrough(routes: map<RouteKey, Hop>, src: Prefix, table: nat, p: Packet)
    ensures Walk(routes, ThroughGateway(src, table), p) ==
            if Contains(src, p.src) then LookupOrStop(routes, table, p.dst) else Passed
  {
    hide HasRoute;
    var a := FamilyRule(src.family, RuleBody(src, None, Lookup(table)));
    var b := FamilyRule(src.family, RuleBody(src, None, Prohibit));
    WalkAppend(routes, [a], [b], p);
    WalkOne(routes, a, p);
    WalkOne(routes, b, p);
    assert ThroughGateway(src, table) == [a] + [b];
  }

  /** What the entry of a device asks for: out directly, through its gateway, or nowhere if that is not
      usable. */
  ghost function DeviceAsked(routes: map<RouteKey, Hop>, cfg: Config, gatewayId: string, dst: Address): Course {
    var gateways := GatewayInterfaces(cfg.gateways);
    if gatewayId == "" then LookupOrPass(routes, MAIN_TABLE, dst)
    else if UsableGateway(gateways, gatewayId) then LookupOrStop(routes, gateways[gatewayId].tableId, dst)
    else Stopped
  }

  lemma WalkDevice(routes: map<RouteKey, Hop>, cfg: Config, e: DeviceRule, p: Packet)
    ensures Walk(routes, DeviceRulesFor(GatewayInterfaces(cfg.gateways))(e), p) ==
            if e.enabled && e.device.family == V4 && e.device == p.src then DeviceAsked(routes, cfg, e.gatewayId, p.dst)
            else Passed
  {
    hide HasRoute;
    hide Walk;
    hide GatewayInterfaces;
    WalkNothing(routes, p);
    if e.enabled && e.device.family == V4 {
      var src := HostPrefix(e.device);
      assert Contains(src, e.device);
      if Contains(src, p.src) {
        HostOnly(e.device, p.src);
      }
      WalkOne(routes, FamilyRule(V4, RuleBody(src, None, Lookup(MAIN_TABLE))), p);
      WalkOne(routes, FamilyRule(V4, RuleBody(src, None, Prohibit)), p);
      var gateways := GatewayInterfaces(cfg.gateways);
      if e.gatewayId in gateways {
        WalkThrough(routes, src, gateways[e.gatewayId].tableId, p);
      }
    }
  }

  /** An enabled entry for this address. */
  ghost predicate Entry(cfg: Config, a: Address, q: Peer, e: DeviceRule) {
    q in cfg.peers && q.enabled && e in q.devices && e.enabled && e.device == a && a.family == V4
  }

  lemma WalkDevices(routes: map<RouteKey, Hop>, cfg: Config, p: Packet, o: Course)
    requires forall q, e :: Entry(cfg, p.src, q, e) ==> DeviceAsked(routes, cfg, e.gatewayId, p.dst) == o
    ensures Walk(routes, DeviceBodies(cfg), p) == if exists q, e :: Entry(cfg, p.src, q, e) then o else Passed
  {
    hide Walk;
    hide FlatMap;
    hide DeviceAsked;
    hide GatewayInterfaces;
    var gateways := GatewayInterfaces(cfg.gateways);
    var f := DevicePeerRules(gateways);
    WalkNothing(routes, p);
    forall q | q in cfg.peers
      ensures Walk(routes, f(q), p) == if exists e :: Entry(cfg, p.src, q, e) then o else Passed
    {
      if q.enabled {
        forall e | e in q.devices
          ensures Walk(routes, DeviceRulesFor(gateways)(e), p) == if Entry(cfg, p.src, q, e) then o else Passed
        {
          WalkDevice(routes, cfg, e, p);
        }
        WalkFlatMap(routes, DeviceRulesFor(gateways), q.devices, p, o);
        if !exists e :: Entry(cfg, p.src, q, e) {
          WalkFlatMap(routes, DeviceRulesFor(gateways), q.devices, p, Passed);
        }
      }
    }
    WalkFlatMap(routes, f, cfg.peers, p, o);
    if q, e :| Entry(cfg, p.src, q, e) {
      assert Walk(routes, f(q), p) == o;
    } else {
      WalkFlatMap(routes, f, cfg.peers, p, Passed);
    }
  }

  /** The device rules, for an address whose entries agree: directly through main, through the table of a
      usable gateway with a reject behind it, or rejected at once if the gateway is not usable. A packet
      of any other address goes on to the LAN bypass. */
  lemma DeviceLookups(k: Kernel, inp: Inputs, rules: map<Slot, seq<RuleBody>>, p: Packet, gatewayId: string)
    requires Settled(k, inp, rules)
    requires forall q, e :: Entry(inp.cfg, p.src, q, e) ==> e.gatewayId == gatewayId
    ensures var d := Decide(k, p, DEVICE_BASE);
            var gateways := GatewayInterfaces(inp.cfg.gateways);
            var inBlock := !d.NoRule? && DEVICE_BASE <= d.priority < LOCAL_BASE;
            if !exists q, e :: Entry(inp.cfg, p.src, q, e) then d == Decide(k, p, LOCAL_BASE)
            else if gatewayId == "" then
              (if HasRoute(k.routes, MAIN_TABLE, p.dst) then d.Routed? && d.table == MAIN_TABLE && inBlock
               else d == Decide(k, p, LOCAL_BASE))
            else if gatewayId in gateways && gateways[gatewayId].enabled && gateways[gatewayId].tableId != 0
                    && HasRoute(k.routes, gateways[gatewayId].tableId, p.dst) then
              d.Routed? && d.table == gateways[gatewayId].tableId && inBlock
            else d.Prohibited? && inBlock
  {
    hide Settled;
    hide HasRoute;
    hide Walk;
    hide Decide;
    hide InPlace;
    hide GatewayInterfaces;
    hide DeviceBodies;
    hide LocalBodies;
    hide GatewayBodies;
    hide PeerRuleBodies;
    BlocksInPlace(k, inp, rules);
    WalksBlock(k, DEVICE_BASE, LOCAL_BASE, DeviceBodies(inp.cfg), p);
    WalkDevices(k.routes, inp.cfg, p, DeviceAsked(k.routes, inp.cfg, gatewayId, p.dst));
  }

  // ---------------------------------------------------------------- the LAN bypass

  /** A LAN destination of the packet's family. */
  ghost predicate LanDestination(lan: seq<Prefix>, p: Packet) {
    exists dest :: dest in lan && dest.family == p.src.family && Contains(dest, p.dst)
  }

  /** The address is in a network, not just a single address, that an enabled peer is authorized for. */
  ghost predicate FromNetwork(cfg: Config, a: Address) {
    exists q, s :: q in cfg.peers && q.enabled && s in Sources(q) && s.length != Bits(s.family) && Contains(s, a)
  }

  lemma WalkLanRules(routes: map<RouteKey, Hop>, lan: seq<Prefix>, src: Prefix, p: Packet)
    ensures Walk(routes, FlatMap(LanRule(src), lan), p) ==
            if Contains(src, p.src) && LanDestination(lan, p) then LookupOrPass(routes, MAIN_TABLE, p.dst) else Passed
  {
    hide Walk;
    hide FlatMap;
    hide NetworkOf;
    hide HasRoute;
    WalkNothing(routes, p);
    var o := LookupOrPass(routes, MAIN_TABLE, p.dst);
    forall dest | dest in lan
      ensures Walk(routes, LanRule(src)(dest), p) ==
              if Contains(src, p.src) && dest.family == p.src.family && Contains(dest, p.dst) then o else Passed
    {
      WalkOne(routes, FamilyRule(src.family, RuleBody(src, Some(dest), Lookup(MAIN_TABLE))), p);
    }
    WalkFlatMap(routes, LanRule(src), lan, p, o);
    if !(Contains(src, p.src) && LanDestination(lan, p)) {
      WalkFlatMap(routes, LanRule(src), lan, p, Passed);
    }
  }

  lemma WalkLanPeers(routes: map<RouteKey, Hop>, inp: Inputs, p: Packet)
    ensures Walk(routes, FlatMap(LanPeerRules(inp.lan), inp.cfg.peers), p) ==
            if LanDestination(inp.lan, p) && FromNetwork(inp.cfg, p.src) then LookupOrPass(routes, MAIN_TABLE, p.dst)
            else Passed
  {
    hide Walk;
    hide FlatMap;
    hide Contains;
    hide LanDestination;
    hide Sources;
    WalkNothing(routes, p);
    var o := LookupOrPass(routes, MAIN_TABLE, p.dst);
    forall q | q in inp.cfg.peers
      ensures var w := Walk(routes, LanPeerRules(inp.lan)(q), p);
              if LanDestination(inp.lan, p) && q.enabled
                 && exists s :: s in Sources(q) && s.length != Bits(s.family) && Contains(s, p.src)
              then w == o else w == Passed
    {
      WalkLanPeer(routes, inp.lan, q, p);
    }
    WalkFlatMap(routes, LanPeerRules(inp.lan), inp.cfg.peers, p, o);
    if !(LanDestination(inp.lan, p) && FromNetwork(inp.cfg, p.src)) {
      WalkFlatMap(routes, LanPeerRules(inp.lan), inp.cfg.peers, p, Passed);
    }
  }

  lemma WalkLanPeer(routes: map<RouteKey, Hop>, lan: seq<Prefix>, q: Peer, p: Packet)
    ensures var w := Walk(routes, LanPeerRules(lan)(q), p);
            if LanDestination(lan, p) && q.enabled
               && exists s :: s in Sources(q) && s.length != Bits(s.family) && Contains(s, p.src)
            then w == LookupOrPass(routes, MAIN_TABLE, p.dst) else w == Passed
  {
    hide Walk;
    hide FlatMap;
    hide Contains;
    hide LanDestination;
    hide Sources;
    WalkNothing(routes, p);
    var o := LookupOrPass(routes, MAIN_TABLE, p.dst);
    forall s | s in Sources(q)
      ensures Walk(routes, LanSourceRules(lan)(s), p) ==
              if s.length != Bits(s.family) && Contains(s, p.src) && LanDestination(lan, p) then o else Passed
    {
      WalkLanRules(routes, lan, s, p);
    }
    WalkFlatMap(routes, LanSourceRules(lan), Sources(q), p, o);
    if !(LanDestination(lan, p) && exists s :: s in Sources(q) && s.length != Bits(s.family) && Contains(s, p.src)) {
      WalkFlatMap(routes, LanSourceRules(lan), Sources(q), p, Passed);
    }
  }

  lemma WalkLanDevices(routes: map<RouteKey, Hop>, inp: Inputs, p: Packet)
    ensures Walk(routes, FlatMap(LanDeviceRules(inp.lan), inp.cfg.peers), p) ==
            if LanDestination(inp.lan, p) && exists q, e :: Entry(inp.cfg, p.src, q, e) then
              LookupOrPass(routes, MAIN_TABLE, p.dst)
            else Passed
  {
    hide Walk;
    hide FlatMap;
    hide LanDestination;
    WalkNothing(routes, p);
    var o := LookupOrPass(routes, MAIN_TABLE, p.dst);
    forall q | q in inp.cfg.peers
      ensures Walk(routes, LanDeviceRules(inp.lan)(q), p) ==
              if LanDestination(inp.lan, p) && exists e :: Entry(inp.cfg, p.src, q, e) then o else Passed
    {
      WalkLanDevicesOf(routes, inp, q, p);
    }
    WalkFlatMap(routes, LanDeviceRules(inp.lan), inp.cfg.peers, p, o);
    if !(LanDestination(inp.lan, p) && exists q, e :: Entry(inp.cfg, p.src, q, e)) {
      WalkFlatMap(routes, LanDeviceRules(inp.lan), inp.cfg.peers, p, Passed);
    }
  }

  lemma WalkLanDevicesOf(routes: map<RouteKey, Hop>, inp: Inputs, q: Peer, p: Packet)
    requires q in inp.cfg.peers
    ensures Walk(routes, LanDeviceRules(inp.lan)(q), p) ==
            if LanDestination(inp.lan, p) && exists e :: Entry(inp.cfg, p.src, q, e) then
              LookupOrPass(routes, MAIN_TABLE, p.dst)
            else Passed
  {
    hide Walk;
    hide FlatMap;
    hide LanDestination;
    hide Contains;
    hide HostPrefix;
    WalkNothing(routes, p);
    var o := LookupOrPass(routes, MAIN_TABLE, p.dst);
    if q.enabled {
      forall e | e in q.devices
        ensures Walk(routes, LanDeviceRule(inp.lan)(e), p) ==
                if LanDestination(inp.lan, p) && Entry(inp.cfg, p.src, q, e) then o else Passed
      {
        WalkLanRules(routes, inp.lan, HostPrefix(e.device), p);
        HostAlone(e.device, p.src);
      }
      WalkFlatMap(routes, LanDeviceRule(inp.lan), q.devices, p, o);
      if !(LanDestination(inp.lan, p) && exists e :: Entry(inp.cfg, p.src, q, e)) {
        WalkFlatMap(routes, LanDeviceRule(inp.lan), q.devices, p, Passed);
      }
    }
  }

  lemma HostAlone(a: Address, b: Address)
    ensures Contains(HostPrefix(a), b) <==> a == b
  {
    if Contains(HostPrefix(a), b) {
      HostOnly(a, b);
    }
  }

  /** The destination is on the LAN, and the source is in a network of an enabled peer or has a device
      entry: the bypass is meant for it. */
  ghost predicate Bypasses(inp: Inputs, p: Packet) {
    LanDestination(inp.lan, p) && (FromNetwork(inp.cfg, p.src) || exists q, e :: Entry(inp.cfg, p.src, q, e))
  }

  /** The LAN bypass consults main for exactly the packets it is meant for, and lets all others, and
      those main has no route for, go on to the gateway rules. */
  lemma LanLookups(k: Kernel, inp: Inputs, rules: map<Slot, seq<RuleBody>>, p: Packet)
    requires Settled(k, inp, rules)
    ensures var d := Decide(k, p, LOCAL_BASE);
            if Bypasses(inp, p) && HasRoute(k.routes, MAIN_TABLE, p.dst) then
              d.Routed? && d.table == MAIN_TABLE && LOCAL_BASE <= d.priority < GATEWAY_BASE
            else d == Decide(k, p, GATEWAY_BASE)
  {
    hide Settled;
    hide HasRoute;
    hide Walk;
    hide Decide;
    hide InPlace;
    hide FlatMap;
    hide LanDestination;
    hide FromNetwork;
    hide Entry;
    BlocksInPlace(k, inp, rules);
    WalksBlock(k, LOCAL_BASE, GATEWAY_BASE, LocalBodies(inp), p);
    WalkLanPeers(k.routes, inp, p);
    WalkLanDevices(k.routes, inp, p);
    WalkAppend(k.routes, FlatMap(LanPeerRules(inp.lan), inp.cfg.peers),
        FlatMap(LanDeviceRules(inp.lan), inp.cfg.peers), p);
  }

  // ---------------------------------------------------------------- gateway rules

  /** The table of the gateway the peer is assigned to, if that is enabled and has an interface and a
      table. */
  ghost function GatewayTable(cfg: Config, peer: Peer): Option<nat> {
    var gateways := GatewayInterfaces(cfg.gateways);
    if peer.vpnGatewayId != "" && peer.vpnGatewayId in gateways && gateways[peer.vpnGatewayId].enabled
       && gateways[peer.vpnGatewayId].tableId != 0
    then Some(gateways[peer.vpnGatewayId].tableId) else None
  }

  ghost function GatewayAsked(routes: map<RouteKey, Hop>, cfg: Config, peer: Peer, dst: Address): Course {
    var table := GatewayTable(cfg, peer);
    if table.None? then Passed else LookupOrStop(routes, table.value, dst)
  }

  lemma WalkGatewayPeer(routes: map<RouteKey, Hop>, cfg: Config, q: Peer, p: Packet)
    ensures Walk(routes, GatewayPeerRules(GatewayInterfaces(cfg.gateways))(q), p) ==
            if q.enabled && FromAddress(q, p.src) then GatewayAsked(routes, cfg, q, p.dst) else Passed
  {
    hide Walk;
    hide FlatMap;
    hide ThroughGateway;
    hide GatewayInterfaces;
    hide Distinct;
    hide Contains;
    WalkNothing(routes, p);
    if q.enabled && GatewayTable(cfg, q).Some? {
      var table := GatewayTable(cfg, q).value;
      var o := LookupOrStop(routes, table, p.dst);
      forall s | s in Sources(q)
        ensures Walk(routes, GatewaySourceRules(table)(s), p) == if Contains(s, p.src) then o else Passed
      {
        WalkThrough(routes, s, table, p);
      }
      WalkFlatMap(routes, GatewaySourceRules(table), Sources(q), p, o);
      if !FromAddress(q, p.src) {
        WalkFlatMap(routes, GatewaySourceRules(table), Sources(q), p, Passed);
      }
    }
  }

  lemma WalkGateways(routes: map<RouteKey, Hop>, cfg: Config, peer: Peer, p: Packet)
    requires peer in cfg.peers && peer.enabled && FromAddress(peer, p.src) && OwnAddress(cfg, peer, p.src)
    ensures Walk(routes, GatewayBodies(cfg), p) == GatewayAsked(routes, cfg, peer, p.dst)
  {
    hide Walk;
    hide GatewayAsked;
    hide FlatMap;
    hide FromAddress;
    hide GatewayInterfaces;
    var f := GatewayPeerRules(GatewayInterfaces(cfg.gateways));
    forall q | q in cfg.peers
      ensures Walk(routes, f(q), p) == if q == peer then GatewayAsked(routes, cfg, peer, p.dst) else Passed
    {
      WalkGatewayPeer(routes, cfg, q, p);
    }
    WalkFlatMap(routes, f, cfg.peers, p, GatewayAsked(routes, cfg, peer, p.dst));
  }

  /** The gateway rules, for an address of one peer alone: the table of its gateway is consulted, and
      the packet rejected if that has no route; without a usable gateway it goes on to main. */
  lemma GatewayLookups(k: Kernel, inp: Inputs, rules: map<Slot, seq<RuleBody>>, peer: Peer, p: Packet)
    requires Settled(k, inp, rules)
    requires peer in inp.cfg.peers && peer.enabled && FromAddress(peer, p.src) && OwnAddress(inp.cfg, peer, p.src)
    ensures var d := Decide(k, p, GATEWAY_BASE);
            var gateways := GatewayInterfaces(inp.cfg.gateways);
            var id := peer.vpnGatewayId;
            var usable := id != "" && id in gateways && gateways[id].enabled && gateways[id].tableId != 0;
            if !usable then d == Decide(k, p, MAIN_PRIORITY)
            else if HasRoute(k.routes, gateways[id].tableId, p.dst) then
              d.Routed? && d.table == gateways[id].tableId && GATEWAY_BASE <= d.priority < MAIN_PRIORITY
            else d.Prohibited? && GATEWAY_BASE <= d.priority < MAIN_PRIORITY
  {
    hide Settled;
    hide HasRoute;
    hide Walk;
    hide Decide;
    hide InPlace;
    hide GatewayInterfaces;
    hide GatewayBodies;
    hide FromAddress;
    BlocksInPlace(k, inp, rules);
    WalksBlock(k, GATEWAY_BASE, MAIN_PRIORITY, GatewayBodies(inp.cfg), p);
    WalkGateways(k.routes, inp.cfg, peer, p);
  }

  // ---------------------------------------------------------------- all blocks together

  lemma BelowAll(k: Kernel, inp: Inputs, rules: map<Slot, seq<RuleBody>>, p: Packet)
    requires Settled(k, inp, rules)
    ensures Decide(k, p, 1) == Decide(k, p, PEER_BASE)
  {
    hide Settled;
    hide AllRules;
    hide FlatMap;
    hide Decide;
    forall m: nat | 1 <= m < PEER_BASE
      ensures At(k.rules, Slot(p.src.family, m)) == []
    {
      NothingBelow(k, inp, rules, Slot(p.src.family, m));
    }
    EmptySlots(k, p, 1, PEER_BASE);
  }

  lemma NothingBelow(k: Kernel, inp: Inputs, rules: map<Slot, seq<RuleBody>>, s: Slot)
    requires Settled(k, inp, rules) && 1 <= s.priority < PEER_BASE
    ensures At(k.rules, s) == []
  {
    hide FlatMap;
    hide PeerRuleBodies;
    hide At;
    if At(k.rules, s) != [] {
      Owner(k, inp, rules, s);
      var x :| x in AllRules(inp) && x.slot == s;
      AllBlocks(inp, x);
      Ranges(inp, x);
    }
  }

  /** Where a packet goes whose source is one enabled peer's alone and has no device entry: through the
      exit node, through the policy routes, nowhere if the peer is strict; then to the LAN through main,
      through the gateway the peer is assigned to or nowhere; and only without one to the kernel's own
      rules. */
  lemma WhereItGoes(k: Kernel, inp: Inputs, rules: map<Slot, seq<RuleBody>>, peer: Peer, p: Packet)
    requires Settled(k, inp, rules)
    requires peer in inp.cfg.peers && peer.enabled && FromAddress(peer, p.src) && OwnAddress(inp.cfg, peer, p.src)
    requires !exists q, e :: Entry(inp.cfg, p.src, q, e)
    ensures var d := Decide(k, p, 1);
            var exits := ExitNodes(inp.cfg.peers);
            var gateways := GatewayInterfaces(inp.cfg.gateways);
            var id := peer.vpnGatewayId;
            if peer.exitNodeId != "" && peer.exitNodeId in exits
               && HasRoute(k.routes, exits[peer.exitNodeId].tableId, p.dst) then
              d.Routed? && d.table == exits[peer.exitNodeId].tableId && PEER_BASE <= d.priority < DEVICE_BASE
            else if peer.policyRoutes != [] && peer.policyTableId > 0
                && HasRoute(k.routes, peer.policyTableId, p.dst) then
              d.Routed? && d.table == peer.policyTableId && PEER_BASE <= d.priority < DEVICE_BASE
            else if peer.strict then
              d.Prohibited? && PEER_BASE <= d.priority < DEVICE_BASE
            else if LanDestination(inp.lan, p) && FromNetwork(inp.cfg, p.src)
                && HasRoute(k.routes, MAIN_TABLE, p.dst) then
              d.Routed? && d.table == MAIN_TABLE && LOCAL_BASE <= d.priority < GATEWAY_BASE
            else if id != "" && id in gateways && gateways[id].enabled && gateways[id].tableId != 0 then
              if HasRoute(k.routes, gateways[id].tableId, p.dst) then
                d.Routed? && d.table == gateways[id].tableId && GATEWAY_BASE <= d.priority < MAIN_PRIORITY
              else d.Prohibited? && GATEWAY_BASE <= d.priority < MAIN_PRIORITY
            else d == Decide(k, p, MAIN_PRIORITY)
  {
    hide Settled;
    hide HasRoute;
    hide Walk;
    hide Decide;
    hide InPlace;
    hide GatewayInterfaces;
    hide ExitNodes;
    hide FromAddress;
    hide OwnAddress;
    hide FromNetwork;
    hide LanDestination;
    hide Entry;
    hide DeviceBodies;
    hide LocalBodies;
    hide GatewayBodies;
    hide PeerRuleBodies;
    BelowAll(k, inp, rules, p);
    BlocksInPlace(k, inp, rules);
    WalksBlock(k, PEER_BASE, DEVICE_BASE, PeerRuleBodies(inp.cfg), p);
    WalkPeers(k.routes, inp.cfg, peer, p);
    DeviceLookups(k, inp, rules, p, "");
    LanLookups(k, inp, rules, p);
    GatewayLookups(k, inp, rules, peer, p);
  }
}
