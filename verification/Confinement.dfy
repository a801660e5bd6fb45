/** Strict confinement: rule evaluation of a packet from a strict peer's source ends inside the
    peer block, in a private table or at a reject, whatever else is installed behind it. */
module Confinement {
  import opened Lists
  import opened Network
  import opened Models
  import opened Kernel
  import opened IpRules
  import opened StrictChains
  import opened GatewayChains
  import opened Routes
  import opened Generators
  import opened Effects
  import opened Convergence

  /** Tables the kernel reserves: default, main and local. */
  predicate Reserved(table: nat) {
    253 <= table <= 255
  }

  ghost predicate NoReservedTables(cfg: Config) {
    forall p :: p in cfg.peers ==> !Reserved(p.tableId) && !Reserved(p.policyTableId)
  }

  /** A packet of this peer: its source address is one the peer is authorized to use. */
  ghost predicate FromPeer(peer: Peer, p: Packet) {
    exists s :: s in Sources(peer) && Contains(s, p.src)
  }

  /** The peer block is installed, and nothing is installed below it. The kernel's own rule at
      priority 0 consults the local table, which only holds the host's own addresses. */
  ghost predicate PeerBlockInstalled(k: Kernel, cfg: Config) {
    && (forall f, n :: 1 <= n < PEER_BASE ==> Slot(f, n) !in k.rules)
    && (forall x :: x in PeerRules(cfg) ==> At(k.rules, x.slot) == [x.body])
    && (forall f, n :: PEER_BASE <= n < DEVICE_BASE && Slot(f, n) in k.rules ==> exists x ::
       x in PeerRules(cfg) && x.slot == Slot(f, n))
  }

  /** Where a rule of the peer block comes from. */
  lemma PeerRuleOrigin(cfg: Config, b: FamilyRule)
    requires b in PeerRuleBodies(cfg)
    ensures exists peer, s :: peer in cfg.peers && peer.enabled && s in Sources(peer)
                              && b in SourceRules(peer, ExitNodes(cfg.peers), s)
  {
    hide FlatMap;
    hide Distinct;
    hide SourceRules;
    var exits := ExitNodes(cfg.peers);
    InFlatMap(PeerBlocks(exits), cfg.peers, b);
    var peer :| peer in cfg.peers && b in PeerBlocks(exits)(peer);
    assert b in PeerBlock(exits, peer);
    InFlatMap(SourceRulesOf(peer, exits), Sources(peer), b);
    var s :| s in Sources(peer) && b in SourceRulesOf(peer, exits)(s);
    assert b in SourceRules(peer, exits, s);
  }

  /** A rule of the peer block selects by source alone, and looks up a private table or rejects. */
  lemma PeerRuleShape(cfg: Config, b: FamilyRule)
    requires b in PeerRuleBodies(cfg) && NoReservedTables(cfg)
    ensures b.family == b.body.src.family && b.body.dst == None
    ensures b.body.action.Lookup? ==> b.body.action.table > 0 && !Reserved(b.body.action.table)
  {
    PeerRuleOrigin(cfg, b);
    ExitNodesSound(cfg.peers);
    hide PeerRuleBodies;
    hide ExitNodes;
    var peer, s :| peer in cfg.peers && peer.enabled && s in Sources(peer)
        && b in SourceRules(peer, ExitNodes(cfg.peers), s);
  }

  /** Every source of an enabled strict peer has its reject in the block. */
  lemma RejectInBlock(cfg: Config, peer: Peer, s: Prefix)
    requires peer in cfg.peers && peer.enabled && peer.strict && s in Sources(peer)
    ensures FamilyRule(s.family, RuleBody(s, None, Prohibit)) in PeerRuleBodies(cfg)
  {
    hide FlatMap;
    hide Distinct;
    var exits := ExitNodes(cfg.peers);
    var b := FamilyRule(s.family, RuleBody(s, None, Prohibit));
    assert b in SourceRulesOf(peer, exits)(s);
    InFlatMap(SourceRulesOf(peer, exits), Sources(peer), b);
    assert b in PeerBlocks(exits)(peer);
    InFlatMap(PeerBlocks(exits), cfg.peers, b);
  }

  /** Where evaluation may end: a reject, or a route of the looked-up table, inside the block. */
  ghost predicate EndsInBlock(d: Decision) {
    match d
    case Routed(n, table, key, _) => PEER_BASE <= n < DEVICE_BASE && table > 0 && !Reserved(table) && key.table == table
    case Prohibited(n) => PEER_BASE <= n < DEVICE_BASE
    case NoRule => false
  }

  /** A rule that can only lead to a private table or to a reject. */
  ghost predicate PrivateBody(b: RuleBody) {
    b.action.Lookup? ==> b.action.table > 0 && !Reserved(b.action.table)
  }

  /** Whatever stands in the peer block, of this configuration or of earlier ones, is private, and
      nothing stands below it. */
  ghost predicate BlockPrivate(k: Kernel) {
    && (forall f, n :: 1 <= n < PEER_BASE ==> Slot(f, n) !in k.rules)
    && (forall s, b :: s in k.rules && PEER_BASE <= s.priority < DEVICE_BASE && b in k.rules[s] ==> PrivateBody(b))
  }

  /** Each rule of the list stands in its slot, perhaps among others. */
  ghost predicate Installed(k: Kernel, xs: seq<IpRule>) {
    forall x :: x in xs ==> x.body in At(k.rules, x.slot)
  }

  lemma BlockIsPrivate(k: Kernel, cfg: Config)
    requires PeerBlockInstalled(k, cfg) && NoReservedTables(cfg)
    ensures BlockPrivate(k) && Installed(k, PeerRules(cfg))
  {
    forall s, b | s in k.rules && PEER_BASE <= s.priority < DEVICE_BASE && b in k.rules[s]
      ensures PrivateBody(b)
    {
      assert Slot(s.family, s.priority) == s;
      var x :| x in PeerRules(cfg) && x.slot == s;
      var i :| 0 <= i < |PeerRules(cfg)| && PeerRules(cfg)[i] == x;
      var own := PeerRuleBodies(cfg)[i];
      hide PeerRuleBodies;
      PeerRuleShape(cfg, own);
      assert At(k.rules, s) == [own.body];
    }
  }

  /** One slot of the block: it decides inside the block or passes the packet on, and a reject that
      matches does not let it pass. */
  lemma {:induction false} SlotInBlock(k: Kernel, n: nat, bodies: seq<RuleBody>, p: Packet)
    requires PEER_BASE <= n < DEVICE_BASE && forall b :: b in bodies ==> PrivateBody(b)
    ensures var d := SlotDecision(k, n, bodies, p);
            && (d.NoRule? || EndsInBlock(d))
            && (forall b :: b in bodies && b.action.Prohibit? && BodyMatches(b, p) ==> !d.NoRule?)
    decreases |bodies|
  {
    if bodies != [] {
      var b, rest := bodies[0], bodies[1..];
      assert PrivateBody(b) && bodies == [b] + rest;
      if b.action.Lookup? {
        LookupHits(k.routes, b.action.table, p.dst, Bits(p.dst.family));
      }
      SlotInBlock(k, n, rest, p);
      hide TableLookup;
      hide BodyMatches;
    }
  }

  /** From any priority of the block up to the packet's own reject. */
  lemma {:induction false} EndsByReject(k: Kernel, p: Packet, n: nat, last: nat)
    requires BlockPrivate(k) && PEER_BASE <= n <= last < DEVICE_BASE
    requires !SlotDecision(k, last, At(k.rules, Slot(p.src.family, last)), p).NoRule?
    ensures EndsInBlock(Decide(k, p, n))
    decreases last - n
  {
    SlotInBlock(k, n, At(k.rules, Slot(p.src.family, n)), p);
    hide BlockPrivate;
    hide SlotDecision;
    if n < last && SlotDecision(k, n, At(k.rules, Slot(p.src.family, n)), p).NoRule? {
      EndsByReject(k, p, n + 1, last);
    }
  }

  lemma {:induction false} SkipBelow(k: Kernel, p: Packet, n: nat)
    requires BlockPrivate(k) && 1 <= n <= PEER_BASE
    ensures Decide(k, p, n) == Decide(k, p, PEER_BASE)
    decreases PEER_BASE - n
  {
    if n < PEER_BASE {
      assert Slot(p.src.family, n) !in k.rules;
      SkipBelow(k, p, n + 1);
    }
  }

  lemma RejectSlot(k: Kernel, cfg: Config, peer: Peer, p: Packet, s: Prefix) returns (n: nat)
    requires BlockPrivate(k) && Installed(k, PeerRules(cfg)) && |PeerRules(cfg)| <= DEVICE_BASE - PEER_BASE
    requires peer in cfg.peers && peer.enabled && peer.strict && s in Sources(peer) && Contains(s, p.src)
    ensures PEER_BASE <= n < DEVICE_BASE && !SlotDecision(k, n, At(k.rules, Slot(p.src.family, n)), p).NoRule?
  {
    RejectInBlock(cfg, peer, s);
    var b := FamilyRule(s.family, RuleBody(s, None, Prohibit));
    var i :| 0 <= i < |PeerRuleBodies(cfg)| && PeerRuleBodies(cfg)[i] == b;
    n := PEER_BASE + i;
    var x := PeerRules(cfg)[i];
    hide PeerRuleBodies;
    assert x in PeerRules(cfg) && x == IpRule(Slot(s.family, n), b.body);
    assert b.body in At(k.rules, Slot(p.src.family, n));
    SlotInBlock(k, n, At(k.rules, Slot(p.src.family, n)), p);
  }

  /** Strict confinement: with at most 6000 peer rules, all of them in place, and nothing but private
      lookups and rejects in the block, evaluating the rules on a packet of an enabled strict peer ends
      inside the peer block, in a private table hit or at a reject. The device, LAN and gateway blocks
      and the main table are never reached, even where the peer's sources overlap those of others or
      rules of an earlier configuration are left in the block. */
  lemma StrictConfinement(k: Kernel, cfg: Config, peer: Peer, p: Packet)
    requires BlockPrivate(k) && Installed(k, PeerRules(cfg)) && |PeerRules(cfg)| <= 6000
    requires peer in cfg.peers && peer.enabled && peer.strict && FromPeer(peer, p)
    ensures EndsInBlock(Decide(k, p, 1))
  {
    hide PeerRules;
    hide Decide;
    hide SlotDecision;
    var s :| s in Sources(peer) && Contains(s, p.src);
    var last := RejectSlot(k, cfg, peer, p, s);
    EndsByReject(k, p, PEER_BASE, last);
    SkipBelow(k, p, 1);
  }

  lemma BlockPriorities(inp: Inputs)
    ensures forall x :: x in PeerRules(inp.cfg) ==> x.slot.priority >= PEER_BASE
    ensures forall x :: x in OtherRules(inp) ==> x.slot.priority >= DEVICE_BASE
  {
    forall x | x in PeerRules(inp.cfg)
      ensures x.slot.priority >= PEER_BASE
    {
      var i :| 0 <= i < |PeerRules(inp.cfg)| && PeerRules(inp.cfg)[i] == x;
    }
    forall x | x in OtherRules(inp)
      ensures x.slot.priority >= DEVICE_BASE
    {
      var i :| 0 <= i < |OtherRules(inp)| && OtherRules(inp)[i] == x;
    }
  }

  lemma OwnSlot(inp: Inputs, x: IpRule)
    requires WithinGaps(inp) && x in PeerRules(inp.cfg)
    ensures x.slot in RuleState(inp) && RuleState(inp)[x.slot] == [x.body]
  {
    AllSlotsDistinct(inp);
    RuleMapAt(AllRules(inp));
    hide RuleMap;
    hide WithinGaps;
    hide PeerRules;
    hide OtherRules;
    var i :| 0 <= i < |PeerRules(inp.cfg)| && PeerRules(inp.cfg)[i] == x;
    assert AllRules(inp)[|OtherRules(inp)| + i] == x;
  }

  lemma SlotOwner(inp: Inputs, s: Slot)
    requires WithinGaps(inp) && s in RuleState(inp) && s.priority < DEVICE_BASE
    ensures exists x :: x in PeerRules(inp.cfg) && x.slot == s
    ensures s.priority >= PEER_BASE
  {
    AllSlotsDistinct(inp);
    RuleMapAt(AllRules(inp));
    BlockPriorities(inp);
    hide RuleMap;
    hide WithinGaps;
    hide PeerRules;
    hide OtherRules;
    var x :| x in AllRules(inp) && x.slot == s;
    assert x in PeerRules(inp.cfg);
  }

  /** A converged kernel has the peer block installed, when its foreign rules lie outside it. */
  lemma ConvergedBlock(k: Kernel, inp: Inputs, rules: map<Slot, seq<RuleBody>>, routes: map<RouteKey, Hop>)
    requires WithinGaps(inp) && Holds(k, inp, rules, routes) && rules.Keys !! Slots(AllRules(inp))
    requires forall s :: s in rules ==> s.priority == 0 || s.priority >= DEVICE_BASE
    ensures PeerBlockInstalled(k, inp.cfg)
  {
    hide WithinGaps;
    hide PeerRules;
    hide RuleState;
    hide AllRules;
    forall x | x in PeerRules(inp.cfg)
      ensures At(k.rules, x.slot) == [x.body]
    {
      OwnSlot(inp, x);
    }
    forall s | s in k.rules && 1 <= s.priority < DEVICE_BASE
      ensures s.priority >= PEER_BASE && exists x :: x in PeerRules(inp.cfg) && x.slot == s
    {
      assert s !in rules;
      SlotOwner(inp, s);
    }
  }
}
