/** The egress filter of strict peers and the temporary guards of a transition. */
module StrictChains {
  import opened Lists
  import opened Network
  import opened Models
  import opened Kernel

  // ---------------------------------------------------------------- strict egress chains

  function StrictAllow(src: Prefix, dest: Prefix, device: string): FwRule {
    FwRule(None, Some(device), Some(src), Some(dest), false, false, Return)
  }

  function StrictReject(src: Prefix): FwRule {
    FwRule(None, None, Some(src), None, false, false, Reject)
  }

  function ExitAllow(src: Prefix): Prefix -> seq<FwRule> {
    (r: Prefix) => if r.family == src.family then [StrictAllow(src, r, WG_DEVICE)] else []
  }

  function ExitAllows(exit: Peer, src: Prefix): seq<FwRule> {
    if exit.exitAllowAll then [StrictAllow(src, DefaultRoute(src.family), WG_DEVICE)]
    else FlatMap(ExitAllow(src), exit.exitRoutes)
  }

  /** Missing and ambiguous gateways yield no allow rule. */
  function PolicyAllow(src: Prefix, nets: seq<GatewayNet>): PolicyRoute -> seq<FwRule> {
    (r: PolicyRoute) => if r.dest.family == src.family && DeviceFor(r.gateway, nets) != ""
         then [StrictAllow(src, r.dest, DeviceFor(r.gateway, nets))] else []
  }

  function StrictSourceRules(p: Peer, exits: map<string, Peer>, nets: seq<GatewayNet>, src: Prefix): seq<FwRule> {
    (if p.exitNodeId != "" && p.exitNodeId in exits then ExitAllows(exits[p.exitNodeId], src) else [])
    + FlatMap(PolicyAllow(src, nets), p.policyRoutes)
    + [StrictReject(src)]
  }

  function StrictSourceRulesOf(p: Peer, exits: map<string, Peer>, nets: seq<GatewayNet>): Prefix -> seq<FwRule> {
    (src: Prefix) => StrictSourceRules(p, exits, nets, src)
  }

  function StrictPeerRules(exits: map<string, Peer>, nets: seq<GatewayNet>): Peer -> seq<FwRule> {
    (p: Peer) => if p.enabled && p.strict then FlatMap(StrictSourceRulesOf(p, exits, nets), Sources(p)) else []
  }

  function StrictEgress(cfg: Config, nets: seq<GatewayNet>): seq<FwRule> {
    FlatMap(StrictPeerRules(ExitNodes(cfg.peers), nets), cfg.peers)
  }

  method GenerateStrictPeer(p: Peer, exits: map<string, Peer>, nets: seq<GatewayNet>) returns (rules: seq<FwRule>)
    ensures rules == StrictPeerRules(exits, nets)(p)
  {
    hide FlatMap;
    hide Distinct;
    rules := [];
    if !p.enabled || !p.strict {
      return;
    }
    var sources := PeerSources(p);
    FlatMapEmpty(StrictSourceRulesOf(p, exits, nets), sources);
    for j := 0 to |sources|
      invariant rules == FlatMap(StrictSourceRulesOf(p, exits, nets), sources[..j])
    {
      FlatMapStep(StrictSourceRulesOf(p, exits, nets), sources, j);
      var block := GenerateStrictSource(p, exits, nets, sources[j]);
      rules := rules + block;
    }
    FlatMapWhole(StrictSourceRulesOf(p, exits, nets), sources);
  }

  /** The chains of all strict peers, in configuration order. */
  method GenerateStrictEgress(cfg: Config, nets: seq<GatewayNet>) returns (rules: seq<FwRule>)
    ensures rules == StrictEgress(cfg, nets)
  {
    hide FlatMap;
    hide Distinct;
    var exits := EnabledExitNodes(cfg);
    rules := [];
    FlatMapEmpty(StrictPeerRules(exits, nets), cfg.peers);
    for i := 0 to |cfg.peers|
      invariant rules == FlatMap(StrictPeerRules(exits, nets), cfg.peers[..i])
    {
      FlatMapStep(StrictPeerRules(exits, nets), cfg.peers, i);
      var block := GenerateStrictPeer(cfg.peers[i], exits, nets);
      rules := rules + block;
    }
    FlatMapWhole(StrictPeerRules(exits, nets), cfg.peers);
  }

  /** One source: allow rules for the exit node, then for the policy routes, then the reject. */
  method GenerateStrictSource(p: Peer, exits: map<string, Peer>, nets: seq<GatewayNet>, src: Prefix)
    returns (rules: seq<FwRule>)
    ensures rules == StrictSourceRules(p, exits, nets, src)
  {
    hide FlatMap;
    hide Distinct;
    rules := [];
    if p.exitNodeId != "" && p.exitNodeId in exits {
      var exit := exits[p.exitNodeId];
      if exit.exitAllowAll {
        rules := [StrictAllow(src, DefaultRoute(src.family), WG_DEVICE)];
      } else {
        FlatMapEmpty(ExitAllow(src), exit.exitRoutes);
        for i := 0 to |exit.exitRoutes|
          invariant rules == FlatMap(ExitAllow(src), exit.exitRoutes[..i])
        {
          FlatMapStep(ExitAllow(src), exit.exitRoutes, i);
          if exit.exitRoutes[i].family == src.family {
            rules := rules + [StrictAllow(src, exit.exitRoutes[i], WG_DEVICE)];
          }
        }
        FlatMapWhole(ExitAllow(src), exit.exitRoutes);
      }
    }
    ghost var before := rules;
    FlatMapEmpty(PolicyAllow(src, nets), p.policyRoutes);
    for i := 0 to |p.policyRoutes|
      invariant rules == before + FlatMap(PolicyAllow(src, nets), p.policyRoutes[..i])
    {
      var route := p.policyRoutes[i];
      FlatMapStep(PolicyAllow(src, nets), p.policyRoutes, i);
      if route.dest.family != src.family {
        continue;
      }
      var resolution := ResolveGateway(route.gateway, nets);
      if !resolution.Resolved? || resolution.device == "" {
        continue;
      }
      rules := rules + [StrictAllow(src, route.dest, resolution.device)];
    }
    FlatMapWhole(PolicyAllow(src, nets), p.policyRoutes);
    rules := rules + [StrictReject(src)];
  }

  function StrictJump(f: Family): FwRule {
    FwRule(Some(WG_DEVICE), None, None, None, false, false, Jump(StrictChain(f)))
  }

  function StrictInit(f: Family): seq<Cmd> {
    [NewChain(StrictChain(f)), EnsureFirst(Forward(f), StrictJump(f)), FlushChain(StrictChain(f), false)]
  }

  /** A rule of the strict chains: it belongs to one source of an enabled strict peer, and can
      only hand the packet back or reject it. */
  ghost predicate IsStrictRule(r: FwRule) {
    r.FwRule? && r.src.Some? && (r.target == Return || r.target == Reject)
  }

  /** A strict rule belongs to the chain of its source's family. */
  function FamilyOf(r: FwRule): Family {
    if r.FwRule? && r.src.Some? then r.src.value.family else V4
  }

  function StrictAppends(rules: seq<FwRule>): (r: seq<Cmd>)
    ensures |r| == |rules|
    ensures forall i :: 0 <= i < |rules| ==> r[i] == Append(StrictChain(FamilyOf(rules[i])), rules[i])
  {
    seq(|rules|, i requires 0 <= i < |rules| => Append(StrictChain(FamilyOf(rules[i])), rules[i]))
  }

  lemma StrictEgressShape(cfg: Config, nets: seq<GatewayNet>)
    ensures forall r :: r in StrictEgress(cfg, nets) ==> IsStrictRule(r)
  {
    hide FlatMap;
    hide Distinct;
    var exits := ExitNodes(cfg.peers);
    forall r | r in StrictEgress(cfg, nets)
      ensures IsStrictRule(r)
    {
      InFlatMap(StrictPeerRules(exits, nets), cfg.peers, r);
      var p :| p in cfg.peers && r in StrictPeerRules(exits, nets)(p);
      InFlatMap(StrictSourceRulesOf(p, exits, nets), Sources(p), r);
      var src :| src in Sources(p) && r in StrictSourceRules(p, exits, nets, src);
      StrictSourceShape(p, exits, nets, src, r);
    }
  }

  lemma StrictSourceShape(p: Peer, exits: map<string, Peer>, nets: seq<GatewayNet>, src: Prefix, r: FwRule)
    requires r in StrictSourceRules(p, exits, nets, src)
    ensures IsStrictRule(r) && r.src == Some(src) && r.inDev == None && !r.established
    ensures r.target == Reject <==> r == StrictReject(src)
  {
    hide FlatMap;
    hide Distinct;
    if p.exitNodeId != "" && p.exitNodeId in exits && r in ExitAllows(exits[p.exitNodeId], src) {
      InFlatMap(ExitAllow(src), exits[p.exitNodeId].exitRoutes, r);
    }
    InFlatMap(PolicyAllow(src, nets), p.policyRoutes, r);
  }

  function StrictUp(cfg: Config, nets: seq<GatewayNet>): seq<Cmd> {
    StrictInit(V4) + StrictInit(V6) + StrictAppends(StrictEgress(cfg, nets))
  }

  function StrictDown(): seq<Cmd> {
    [Remove(Forward(V4), StrictJump(V4)), FlushChain(StrictChain(V4), true), DropChain(StrictChain(V4)),
     Remove(Forward(V6), StrictJump(V6)), FlushChain(StrictChain(V6), true), DropChain(StrictChain(V6))]
  }

  // ---------------------------------------------------------------- temporary guards

  function StrictSourcesOf(): Peer -> seq<Prefix> {
    (p: Peer) => if p.enabled && p.strict then Sources(p) else []
  }

  /** Sources of enabled strict peers, each once. */
  function StrictSources(cfg: Config): seq<Prefix> {
    Distinct(FlatMap(StrictSourcesOf(), cfg.peers))
  }

  lemma DistinctSnoc(xs: seq<Prefix>, x: Prefix)
    ensures Distinct(xs + [x]) == if x in Distinct(xs) then Distinct(xs) else Distinct(xs) + [x]
  {
    var all := xs + [x];
    assert all[..|all| - 1] == xs && all[|all| - 1] == x;
  }

  /** found, extended by those of own that are new. */
  function Extended(found: seq<Prefix>, own: seq<Prefix>): seq<Prefix> {
    if own == [] then found
    else
      var init, last := Extended(found, own[..|own| - 1]), own[|own| - 1];
      if last in init then init else init + [last]
  }

  lemma {:induction false} ExtendedIsDistinct(all: seq<Prefix>, own: seq<Prefix>)
    ensures Extended(Distinct(all), own) == Distinct(all + own)
  {
    hide Distinct;
    if own == [] {
      assert all + own == all;
    } else {
      var init, last := own[..|own| - 1], own[|own| - 1];
      ExtendedIsDistinct(all, init);
      DistinctSnoc(all + init, last);
      assert all + own == (all + init) + [last];
    }
  }

  /** One peer's sources, those already collected left out. */
  method CollectNew(seen: set<Prefix>, found: seq<Prefix>, own: seq<Prefix>)
    returns (seen': set<Prefix>, found': seq<Prefix>)
    requires forall s :: s in seen <==> s in found
    ensures found' == Extended(found, own) && forall s :: s in seen' <==> s in found'
  {
    seen', found' := seen, found;
    for j := 0 to |own|
      invariant found' == Extended(found, own[..j]) && forall s :: s in seen' <==> s in found'
    {
      assert own[..j + 1][..j] == own[..j];
      if own[j] !in seen' {
        seen' := seen' + {own[j]};
        found' := found' + [own[j]];
      }
    }
    assert own[..|own|] == own;
  }

  method StrictPeerSources(cfg: Config) returns (sources: seq<Prefix>)
    ensures sources == StrictSources(cfg)
  {
    hide FlatMap;
    hide Distinct;
    hide Extended;
    var seen: set<Prefix> := {};
    sources := [];
    NoSources();
    FlatMapEmpty(StrictSourcesOf(), cfg.peers);
    for i := 0 to |cfg.peers|
      invariant sources == Distinct(FlatMap(StrictSourcesOf(), cfg.peers[..i])) && forall s :: s in seen <==>
                s in sources
    {
      var p := cfg.peers[i];
      FlatMapStep(StrictSourcesOf(), cfg.peers, i);
      if p.enabled && p.strict {
        var own := PeerSources(p);
        ExtendedIsDistinct(FlatMap(StrictSourcesOf(), cfg.peers[..i]), own);
        seen, sources := CollectNew(seen, sources, own);
      } else {
        assert FlatMap(StrictSourcesOf(), cfg.peers[..i]) + [] == FlatMap(StrictSourcesOf(), cfg.peers[..i]);
      }
    }
    FlatMapWhole(StrictSourcesOf(), cfg.peers);
  }

  lemma NoSources()
    ensures Distinct<Prefix>([]) == []
  {
  }

  function Affected(previous: Config, next: Config): seq<Prefix> {
    Distinct(StrictSources(previous) + StrictSources(next))
  }

  function Guard(src: Prefix): FwRule {
    FwRule(Some(WG_DEVICE), None, Some(src), None, false, true, Reject)
  }

  function GuardCmd(src: Prefix, add: bool): Cmd {
    if add then Prepend(Forward(src.family), Guard(src)) else Remove(Forward(src.family), Guard(src))
  }

  function GuardCmds(sources: seq<Prefix>, add: bool): (r: seq<Cmd>)
    ensures |r| == |sources| && forall i :: 0 <= i < |sources| ==> r[i] == GuardCmd(sources[i], add)
  {
    seq(|sources|, i requires 0 <= i < |sources| => GuardCmd(sources[i], add))
  }
}
