/** How far the fail-closed guarantee reaches: the accept rules of the next gateway chain are
    exactly what passes the guards, and LAN destinations are always among them. */
module Bypass {
  import opened Lists
  import opened Network
  import opened Models
  import opened Kernel
  import opened IpRules
  import opened StrictChains
  import opened GatewayChains
  import opened Routes
  import opened Generators
  import opened Effects
  import opened FailClosed
  import opened Guards
  import opened Convergence
  import opened FaultFreeRuns
  import opened Hooks
  import opened Runs

  lemma AcceptsAreAppended(next: Inputs, f: Family, r: FwRule)
    ensures EmitsAccept(next, f, r) <==> r in Appended(GatewayAppends(next.cfg, next.lan), GatewayChain(f))
    ensures EmitsAccept(next, f, r) ==> r.FwRule? && r.target == Accept
  {
    var c := Append(GatewayChain(f), r);
    AppendedMembers(GatewayAppends(next.cfg, next.lan), GatewayChain(f));
    assert c !in GATEWAY_INIT;
    if EmitsAccept(next, f, r) {
      assert c in GatewayAppends(next.cfg, next.lan);
      GatewayAppendsShape(next.cfg, next.lan, c);
    }
  }

  /** A packet that matches an emitted accept is accepted by a chain that holds exactly those. */
  lemma GatewayChainAccepts(rules: seq<FwRule>, next: Inputs, p: Packet)
    requires rules == Appended(GatewayAppends(next.cfg, next.lan), GatewayChain(p.src.family))
    requires !MatchesNoAccept(next, p)
    ensures UserVerdict(rules, p) == Accepted
  {
    hide Appended;
    hide GatewayAppends;
    hide EmitsAccept;
    var r :| EmitsAccept(next, p.src.family, r) && r.FwRule? && Matches(r, p);
    AcceptsAreAppended(next, p.src.family, r);
    var first := FirstMatch(rules, p);
    assert first.Some?;
    AcceptsAreAppended(next, p.src.family, first.value);
  }

  lemma AboveAccepts(k: Kernel, next: Inputs, p: Packet, below: seq<FwRule>, foreign: (nat, Packet) -> Verdict)
    requires Filters(k, next, p.src.family) && k.chains[Forward(p.src.family)] == [GatewayJump(p.src.family)] + below
    requires p.inDev == WG_DEVICE && !MatchesNoAccept(next, p)
    ensures Forwarded(k, p, foreign) == Accepted
  {
    var rules := k.chains[Forward(p.src.family)];
    assert rules[0] == GatewayJump(p.src.family) && Matches(GatewayJump(p.src.family), p);
    GatewayChainAccepts(k.chains[GatewayChain(p.src.family)], next, p);
  }

  lemma AboveRejects(k: Kernel, next: Inputs, s: Prefix, p: Packet, below: seq<FwRule>,
                     foreign: (nat, Packet) -> Verdict)
    requires Filters(k, next, s.family) && k.chains[Forward(s.family)] == [GatewayJump(s.family)] + below
    requires Shielded(below, s, false) && StrictSane(k, s.family)
    requires p.inDev == WG_DEVICE && Contains(s, p.src) && MatchesNoAccept(next, p)
    ensures Forwarded(k, p, foreign) == Rejected
  {
    ShieldedMonotone(below, s);
    ShieldedPrepend(below, GatewayJump(s.family), s, true);
    forall r | r in k.chains[GatewayChain(s.family)]
      ensures EmitsAccept(next, s.family, r)
    {
      AcceptsAreAppended(next, s.family, r);
    }
    hide EmitsAccept;
    hide Appended;
    hide Shielded;
    ShieldRejects(k, k.chains[Forward(s.family)], p, s, true, foreign, next);
  }

  /** The state in which step 4 begins: the strict chain is the next one, the guard stands in FORWARD
      and no jump to the gateway chain is left. */
  ghost predicate BeforeSetup(k: Kernel, next: Inputs, s: Prefix) {
    && k.BuiltIns() && k.rules.Keys !! Slots(AllRules(next))
    && StrictChain(s.family) in k.chains
    && k.chains[StrictChain(s.family)] == OfFamily(StrictEgress(next.cfg, next.nets), s.family)
    && StrictJump(s.family) in k.chains[Forward(s.family)] && GatewayJump(s.family) !in k.chains[Forward(s.family)]
    && StrictSane(k, s.family) && Shielded(k.chains[Forward(s.family)], s, false)
  }

  lemma ReachAfterSetup(k: Kernel, next: Inputs, s: Prefix, p: Packet, foreign: (nat, Packet) -> Verdict)
    requires WithinGaps(next) && BeforeSetup(k, next, s)
    requires p.inDev == WG_DEVICE && Contains(s, p.src)
    ensures var k' := Do(k, Setup(next));
            k'.BuiltIns() && Forwarded(k', p, foreign) == (if MatchesNoAccept(next, p) then Rejected else Accepted)
  {
    SetupFilters(k, next, s.family);
    var k' := Do(k, Setup(next));
    SaneCarries(k, k', s.family, next);
    FiltersBuiltIns(k', next, s.family);
    assert Contains(s, p.src) ==> p.src.family == s.family;
    hide Do;
    hide AllRules;
    hide WithinGaps;
    hide Filters;
    hide StrictSane;
    hide Shielded;
    hide MatchesNoAccept;
    hide Forwarded;
    if MatchesNoAccept(next, p) {
      AboveRejects(k', next, s, p, k.chains[Forward(s.family)], foreign);
    } else {
      AboveAccepts(k', next, p, k.chains[Forward(s.family)], foreign);
    }
  }

  lemma AbsentAfter(k: Kernel, c: Cmd, ch: ChainId, x: FwRule)
    requires ch in k.chains && x !in k.chains[ch] && (TouchesChain(c, ch) ==> c.EnsureFirst? && c.rule != x)
    ensures var k' := Apply(k, c).0; ch in k'.chains && x !in k'.chains[ch]
  {
  }

  lemma {:induction false} AbsentStays(k: Kernel, cmds: seq<Cmd>, ch: ChainId, x: FwRule)
    requires ch in k.chains && x !in k.chains[ch]
    requires forall c :: c in cmds && TouchesChain(c, ch) ==> c.EnsureFirst? && c.rule != x
    ensures ch in Do(k, cmds).chains && x !in Do(k, cmds).chains[ch]
  {
    hide Apply;
    if cmds != [] {
      var init, c := cmds[..|cmds| - 1], cmds[|cmds| - 1];
      AbsentStays(k, init, ch, x);
      assert c in cmds;
      AbsentAfter(Do(k, init), c, ch, x);
    }
  }

  /** Step 2 takes the only jump to the gateway chain out of FORWARD, and step 3 puts none in. */
  lemma JumpRemoved(k: Kernel, prev: Inputs, next: Inputs, f: Family)
    requires k.BuiltIns() && Count(k.chains[Forward(f)], GatewayJump(f)) <= 1
    ensures var k3 := Do(Do(k, Teardown(prev)), StrictUp(next.cfg, next.nets));
            Forward(f) in k3.chains && GatewayJump(f) !in k3.chains[Forward(f)]
  {
    TeardownRemoves(prev, f);
    hide Teardown;
    RemovedIsGone(k, Teardown(prev), Forward(f), GatewayJump(f));
    StrictUpTouches(next);
    hide StrictUp;
    hide Do;
    AbsentStays(Do(k, Teardown(prev)), StrictUp(next.cfg, next.nets), Forward(f), GatewayJump(f));
  }

  lemma TeardownRemoves(prev: Inputs, f: Family)
    ensures Remove(Forward(f), GatewayJump(f)) in Teardown(prev)
    ensures forall c :: c in Teardown(prev) ==> OnlyRemoves(c, Forward(f))
  {
    RoutesDownShape(prev);
    hide RoutesDown;
    hide PeerRules;
    hide OtherRules;
    assert f == V4 || f == V6;
    assert Remove(Forward(f), GatewayJump(f)) in GATEWAY_DOWN;
    forall c | c in Teardown(prev)
      ensures OnlyRemoves(c, Forward(f))
    {
      assert c in ZeroTierDown(prev) || c in DelRules(PeerRules(prev.cfg)) || c in GATEWAY_DOWN
             || c in DelRules(OtherRules(prev)) || c in RoutesDown(prev);
    }
  }

  /** Steps 2 and 3 keep the guard in place and the strict chain free of accepts. */
  lemma GuardStays(k: Kernel, prev: Inputs, next: Inputs, sources: seq<Prefix>, s: Prefix, k3: Kernel)
    requires Held(k, s.family, false, sources, next) && s in sources
    requires k3 == Do(k, Teardown(prev) + StrictUp(next.cfg, next.nets))
             && Succeeds(k, Teardown(prev) + StrictUp(next.cfg, next.nets))
    ensures k3.BuiltIns() && StrictSane(k3, s.family) && Shielded(k3.chains[Forward(s.family)], s, false)
  {
    hide Do;
    hide Succeeds;
    hide Teardown;
    hide StrictUp;
    hide RunFrom;
    var cmds := Teardown(prev) + StrictUp(next.cfg, next.nets);
    TeardownSafe(prev, s.family, next);
    StrictUpSafe(next.cfg, next.nets, s.family, false, next);
    AllSafeAppend(Teardown(prev), StrictUp(next.cfg, next.nets), s.family, false, next);
    var env := (i: nat) => Done;
    SucceedsRuns(k, cmds, env, 0);
    SafeRun(k, cmds, env, 0, s.family, false, sources, next);
    var r := Run(k, cmds, env, 0);
    assert r.Final() in r.trace;
  }

  lemma SetupReached(k: Kernel, prev: Inputs, next: Inputs, rules: map<Slot, seq<RuleBody>>, routes: map<RouteKey, Hop>,
                     sources: seq<Prefix>, s: Prefix, k3: Kernel)
    requires Valid(prev) && Valid(next) && Holds(k, prev, rules, routes)
    requires ForeignTo(rules, routes, prev) && ForeignTo(rules, routes, next)
    requires Held(k, s.family, false, sources, next) && s in sources
    requires Count(k.chains[Forward(s.family)], GatewayJump(s.family)) <= 1
    requires k3 == Do(Do(k, Teardown(prev)), StrictUp(next.cfg, next.nets))
    ensures BeforeSetup(k3, next, s)
    ensures Succeeds(k, Teardown(prev) + StrictUp(next.cfg, next.nets))
  {
    hide Do;
    hide Succeeds;
    hide AllRules;
    hide RuleState;
    hide RouteState;
    hide ManagedKeys;
    hide WithinGaps;
    hide UniqueTables;
    hide StrictEgress;
    hide OfFamily;
    hide Teardown;
    hide StrictUp;
    hide Shielded;
    TeardownSucceeds(k, prev);
    TeardownEffect(k, prev, rules, routes);
    var k2 := Do(k, Teardown(prev));
    StrictUpSucceeds(k2, next.cfg, next.nets);
    StrictUpEffect(k2, next.cfg, next.nets, s.family);
    PureChains(next, k2, StrictUp(next.cfg, next.nets));
    SucceedsAppend(k, Teardown(prev), StrictUp(next.cfg, next.nets));
    DoAppend(k, Teardown(prev), StrictUp(next.cfg, next.nets));
    GuardStays(k, prev, next, sources, s, k3);
    JumpRemoved(k, prev, next, s.family);
  }

  /** Guards leave everything but FORWARD alone, and in FORWARD every other rule. */
  lemma {:induction false} GuardsKeepCount(k: Kernel, sources: seq<Prefix>, f: Family, x: FwRule)
    requires k.BuiltIns() && forall s :: x != Guard(s)
    ensures var k' := Do(k, GuardCmds(sources, true));
            k'.BuiltIns() && Count(k'.chains[Forward(f)], x) == Count(k.chains[Forward(f)], x)
            && k'.rules == k.rules && k'.routes == k.routes
  {
    if sources != [] {
      var init, last := sources[..|sources| - 1], sources[|sources| - 1];
      assert GuardCmds(sources, true)[..|sources| - 1] == GuardCmds(init, true);
      GuardsKeepCount(k, init, f, x);
      var rules := Do(k, GuardCmds(init, true)).chains[Forward(last.family)];
      assert ([Guard(last)] + rules)[1..] == rules;
    }
  }

  /** The exact reach of the guards, in a run: once a fault-free Reconcile has come to the end of step
      4, and FORWARD had at most one jump to the gateway chain at the start, a packet from wg0 of an
      affected source is rejected if it matches no accept rule of the next gateway chain, and accepted
      if it matches one. The jump that step 4 inserts stands above the guards. */
  lemma GuardReachIsExact(k: Kernel, prev: Inputs, next: Inputs, rules: map<Slot, seq<RuleBody>>,
                          routes: map<RouteKey, Hop>,
                          env: nat -> Outcome, t: nat, s: Prefix, p: Packet, foreign: (nat, Packet) -> Verdict)
    requires Sane(k) && Valid(prev) && Valid(next) && NoFaults(env)
    requires Holds(k, prev, rules, routes) && ForeignTo(rules, routes, prev) && ForeignTo(rules, routes, next)
    requires Count(k.chains[Forward(s.family)], GatewayJump(s.family)) <= 1
    requires s in Affected(prev.cfg, next.cfg) && p.inDev == WG_DEVICE && Contains(s, p.src)
    ensures var r := Run(k, GuardCmds(Affected(prev.cfg, next.cfg), true) + Middle(prev, next), env, t);
            && r.ok && r.Final().BuiltIns()
            && Forwarded(r.Final(), p, foreign) == (if MatchesNoAccept(next, p) then Rejected else Accepted)
  {
    hide Affected;
    ReachFrom(k, prev, next, rules, routes, env, t, Affected(prev.cfg, next.cfg), s, p, foreign);
  }

  lemma ReachFrom(k: Kernel, prev: Inputs, next: Inputs, rules: map<Slot, seq<RuleBody>>, routes: map<RouteKey, Hop>,
                  env: nat -> Outcome, t: nat, sources: seq<Prefix>, s: Prefix, p: Packet,
                  foreign: (nat, Packet) -> Verdict)
    requires Sane(k) && Valid(prev) && Valid(next) && NoFaults(env)
    requires Holds(k, prev, rules, routes) && ForeignTo(rules, routes, prev) && ForeignTo(rules, routes, next)
    requires Count(k.chains[Forward(s.family)], GatewayJump(s.family)) <= 1
    requires s in sources && p.inDev == WG_DEVICE && Contains(s, p.src)
    ensures var r := Run(k, GuardCmds(sources, true) + Middle(prev, next), env, t);
            && r.ok && r.Final().BuiltIns()
            && Forwarded(r.Final(), p, foreign) == (if MatchesNoAccept(next, p) then Rejected else Accepted)
  {
    hide Do;
    hide Succeeds;
    hide RunFrom;
    hide ForeignTo;
    hide RuleState;
    hide RouteState;
    hide StrictSane;
    hide Shielded;
    hide BeforeSetup;
    hide Teardown;
    hide StrictUp;
    hide Setup;
    hide Forwarded;
    hide MatchesNoAccept;
    hide WithinGaps;
    hide UniqueTables;
    hide Enumerates;
    hide Count;
    var a, b, c := GuardCmds(sources, true), Teardown(prev) + StrictUp(next.cfg, next.nets), Setup(next);
    GuardsSucceed(k, sources, true);
    SucceedsRuns(k, a, env, t);
    GuardsHeld(k, sources, env, t, s.family, next);
    var k1 := Do(k, a);
    JumpIsNoGuard(s.family);
    GuardsKeepCount(k, sources, s.family, GatewayJump(s.family));
    var k3 := Do(Do(k1, Teardown(prev)), StrictUp(next.cfg, next.nets));
    SetupReached(k1, prev, next, rules, routes, sources, s, k3);
    DoAppend(k1, Teardown(prev), StrictUp(next.cfg, next.nets));
    ReachAfterSetup(k3, next, s, p, foreign);
    SetupSucceedsFrom(k3, next, s);
    SucceedsAppend(k1, b, c);
    DoAppend(k1, b, c);
    SucceedsAppend(k, a, b + c);
    DoAppend(k, a, b + c);
    SucceedsRuns(k, a + (b + c), env, t);
  }

  lemma JumpIsNoGuard(f: Family)
    ensures forall s :: GatewayJump(f) != Guard(s)
  {
  }

  lemma SetupSucceedsFrom(k: Kernel, next: Inputs, s: Prefix)
    requires WithinGaps(next) && BeforeSetup(k, next, s)
    ensures Succeeds(k, Setup(next))
  {
    hide AllRules;
    hide WithinGaps;
    hide Setup;
    hide Shielded;
    hide StrictSane;
    SetupFilters(k, next, s.family);
  }

  lemma SaneCarries(k: Kernel, k': Kernel, f: Family, next: Inputs)
    requires StrictSane(k, f) && StrictChain(f) in k.chains && Filters(k', next, f)
    requires k.chains[StrictChain(f)] == OfFamily(StrictEgress(next.cfg, next.nets), f)
    ensures StrictSane(k', f)
  {
  }

  /** LAN destinations are never protected: the gateway chain accepts them for every enabled
      IPv4 source, strict peers included. */
  lemma LanIsAccepted(next: Inputs, peer: Peer, src: Prefix, dest: Prefix, p: Packet)
    requires peer in next.cfg.peers && peer.enabled && src in Sources(peer) && dest in next.lan
    requires src.family == V4 && dest.family == V4
    requires Contains(src, p.src) && Contains(dest, p.dst)
    ensures !MatchesNoAccept(next, p)
  {
    hide FlatMap;
    hide Distinct;
    var r := FwRule(None, None, Some(src), Some(dest), false, false, Accept);
    var c := Append(GatewayChain(V4), r);
    assert c in LanAccess(src)(dest);
    InFlatMap(LanAccess(src), next.lan, c);
    assert c in LanSourceAccess(next.lan)(src);
    InFlatMap(LanSourceAccess(next.lan), Sources(peer), c);
    assert c in LanPeerAccess(next.lan)(peer);
    InFlatMap(LanPeerAccess(next.lan), next.cfg.peers, c);
    assert c in GatewayAppends(next.cfg, next.lan);
    assert EmitsAccept(next, V4, r) && Matches(r, p);
  }

  lemma StrictSourceAffected(prev: Config, next: Config, peer: Peer, s: Prefix)
    requires peer in next.peers && peer.enabled && peer.strict && s in Sources(peer)
    ensures s in Affected(prev, next)
  {
    hide FlatMap;
    hide Distinct;
    assert s in StrictSourcesOf()(peer);
    InFlatMap(StrictSourcesOf(), next.peers, s);
    DistinctElements(FlatMap(StrictSourcesOf(), next.peers));
    DistinctElements(StrictSources(prev) + StrictSources(next));
  }

  /** So, before its guard is released, a strict peer already reaches the LAN. */
  lemma LanPassesGuards(k: Kernel, prev: Inputs, next: Inputs, rules: map<Slot, seq<RuleBody>>,
                        routes: map<RouteKey, Hop>,
                        env: nat -> Outcome, t: nat, peer: Peer, s: Prefix, dest: Prefix, p: Packet,
                        foreign: (nat, Packet) -> Verdict)
    requires Sane(k) && Valid(prev) && Valid(next) && NoFaults(env)
    requires Holds(k, prev, rules, routes) && ForeignTo(rules, routes, prev) && ForeignTo(rules, routes, next)
    requires Count(k.chains[Forward(V4)], GatewayJump(V4)) <= 1
    requires peer in next.cfg.peers && peer.enabled && peer.strict && s in Sources(peer) && dest in next.lan
    requires s.family == V4 && dest.family == V4 && p.inDev == WG_DEVICE && Contains(s, p.src) && Contains(dest, p.dst)
    ensures var r := Run(k, GuardCmds(Affected(prev.cfg, next.cfg), true) + Middle(prev, next), env, t);
            r.ok && r.Final().BuiltIns() && Forwarded(r.Final(), p, foreign) == Accepted
  {
    hide Affected;
    hide Sources;
    hide Middle;
    hide RunFrom;
    hide MatchesNoAccept;
    hide Forwarded;
    StrictSourceAffected(prev.cfg, next.cfg, peer, s);
    LanIsAccepted(next, peer, s, dest, p);
    GuardReachIsExact(k, prev, next, rules, routes, env, t, s, p, foreign);
  }
}
