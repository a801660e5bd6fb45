/** A Reconcile that meets no fault succeeds, and converges exactly: rules, routes, strict chains
    and gateway chains become those of the next configuration, foreign state stays. */
module FaultFreeRuns {
  import opened Lists
  import opened Network
  import opened Models
  import opened Kernel
  import opened Runs
  import opened IpRules
  import opened StrictChains
  import opened GatewayChains
  import opened Routes
  import opened Generators
  import opened Effects
  import opened FailClosed
  import opened Guards
  import opened Convergence

  // ---------------------------------------------------------------- success

  /** No command of the list fails of its own accord. */
  ghost predicate Succeeds(k: Kernel, cmds: seq<Cmd>) {
    cmds != [] ==>
      var init, last := cmds[..|cmds| - 1], cmds[|cmds| - 1];
      Succeeds(k, init) && (Apply(Do(k, init), last).1 || Tolerant(last))
  }

  lemma {:induction false} SucceedsAppend(k: Kernel, a: seq<Cmd>, b: seq<Cmd>)
    requires Succeeds(k, a) && Succeeds(Do(k, a), b)
    ensures Succeeds(k, a + b)
  {
    if b == [] {
      assert a + b == a;
    } else {
      var init, last := b[..|b| - 1], b[|b| - 1];
      SucceedsAppend(k, a, init);
      DoAppend(k, a, init);
      assert (a + b)[..|a + b| - 1] == a + init;
    }
  }

  lemma {:induction false} SucceedsSplit(k: Kernel, c: Cmd, rest: seq<Cmd>)
    requires Succeeds(k, [c] + rest)
    ensures (Apply(k, c).1 || Tolerant(c)) && Succeeds(Apply(k, c).0, rest)
  {
    if rest == [] {
      assert [c] + rest == [c] && [c][..0] == [];
    } else {
      var init, last := rest[..|rest| - 1], rest[|rest| - 1];
      assert ([c] + rest)[..|[c] + rest| - 1] == [c] + init;
      SucceedsSplit(k, c, init);
      DoCons(k, c, init);
    }
  }

  lemma {:induction false} SucceedsRuns(k: Kernel, cmds: seq<Cmd>, env: nat -> Outcome, t: nat)
    requires NoFaults(env) && Succeeds(k, cmds)
    ensures Run(k, cmds, env, t).ok && Run(k, cmds, env, t).Final() == Do(k, cmds)
    decreases |cmds|
  {
    if cmds == [] {
      RunEmpty(StepUnder(env), k, t);
    } else {
      assert cmds == [cmds[0]] + cmds[1..];
      SucceedsSplit(k, cmds[0], cmds[1..]);
      RunFromUnfold(StepUnder(env), k, cmds, t);
      hide Succeeds;
      var (k', ok) := Step(k, cmds[0], env(t));
      assert StepUnder(env)(k, cmds[0], t) == (k', ok);
      hide Step;
      SucceedsRuns(k', cmds[1..], env, t + 1);
      FaultFree(k, cmds, env, t);
    }
  }

  lemma {:induction false} UnconditionalSucceeds(k: Kernel, cmds: seq<Cmd>)
    requires forall c :: c in cmds ==> Tolerant(c) || c.ReplaceRoute?
    ensures Succeeds(k, cmds)
  {
    if cmds != [] {
      UnconditionalSucceeds(k, cmds[..|cmds| - 1]);
      assert cmds[|cmds| - 1] in cmds;
    }
  }

  /** Rules added to chains that exist, none of them a jump. */
  ghost predicate AddsTo(c: Cmd, chains: set<ChainId>) {
    (c.Append? || c.Prepend? || c.EnsureFirst? || c.EnsureLast?) && c.chain in chains && c.rule.FwRule?
        && !c.rule.target.Jump?
  }

  lemma {:induction false} AddsSucceed(k: Kernel, cmds: seq<Cmd>, chains: set<ChainId>)
    requires chains <= k.chains.Keys
    requires forall c :: c in cmds ==> AddsTo(c, chains)
    ensures Succeeds(k, cmds) && chains <= Do(k, cmds).chains.Keys
  {
    if cmds != [] {
      AddsSucceed(k, cmds[..|cmds| - 1], chains);
      assert cmds[|cmds| - 1] in cmds;
    }
  }

  lemma {:induction false} SetRulesSucceed(k: Kernel, xs: seq<IpRule>)
    requires DistinctSlots(xs)
    requires forall x :: x in xs && x.slot in k.rules ==> |k.rules[x.slot]| == 1
    ensures Succeeds(k, SetRules(xs))
  {
    if xs != [] {
      var init, last := xs[..|xs| - 1], xs[|xs| - 1];
      assert SetRules(xs)[..|xs| - 1] == SetRules(init);
      LastSlotIsNew(xs);
      SetRulesSucceed(k, init);
      SetRulesEffect(k, init);
      RuleMapAt(init);
      assert last in xs;
      var m := Do(k, SetRules(init)).rules;
      assert last.slot in m ==> |m[last.slot]| == 1;
      assert At(ClearFirst(m, last.slot), last.slot) == [];
    }
  }

  lemma ThreeSucceed(k: Kernel, a: Cmd, b: Cmd, c: Cmd)
    requires Apply(k, a).1 || Tolerant(a)
    requires Apply(Apply(k, a).0, b).1 || Tolerant(b)
    requires Apply(Apply(Apply(k, a).0, b).0, c).1 || Tolerant(c)
    ensures Succeeds(k, [a, b, c])
  {
    hide Apply;
    hide Tolerant;
    assert [a][..0] == [] && [a, b][..1] == [a] && [a, b, c][..2] == [a, b];
    assert Do(k, []) == k;
    assert Do(k, [a]) == Apply(k, a).0;
    assert Do(k, [a, b]) == Apply(Apply(k, a).0, b).0;
    assert Succeeds(k, []);
    assert Succeeds(k, [a]);
    assert Succeeds(k, [a, b]);
  }

  // ---------------------------------------------------------------- chains of one owner

  /** A chain exists, is empty, and its jump stands in the hook; nothing else has changed. */
  ghost predicate Initialised(m: map<ChainId, seq<FwRule>>, m': map<ChainId, seq<FwRule>>, ch: ChainId, hook: ChainId,
                              jump: FwRule) {
    && ch in m' && m'[ch] == []
    && hook in m && hook in m' && jump in m'[hook]
    && m'[hook] == (if jump in m[hook] then m[hook] else [jump] + m[hook])
    && (forall c :: c != ch && c != hook ==> ((c in m <==> c in m') && (c in m ==> m'[c] == m[c])))
  }

  lemma InitialisedMaps(m: map<ChainId, seq<FwRule>>, m': map<ChainId, seq<FwRule>>, ch: ChainId, hook: ChainId,
                        jump: FwRule)
    requires hook in m && hook != ch && hook in m' && jump in m'[hook]
    requires m' == if jump in m[hook] then m[ch := []] else m[ch := []][hook := [jump] + m[hook]]
    ensures Initialised(m, m', ch, hook, jump)
  {
  }

  function GatewayTriple(ch: ChainId, hook: ChainId, jump: FwRule): seq<Cmd> {
    [NewChain(ch), FlushChain(ch, false), EnsureFirst(hook, jump)]
  }

  lemma NewChainEffect(k: Kernel, ch: ChainId)
    ensures Apply(k, NewChain(ch)).0.chains == if ch in k.chains then k.chains else k.chains[ch := []]
    ensures Tolerant(NewChain(ch))
  {
  }

  lemma FlushEffect(k: Kernel, ch: ChainId)
    requires ch in k.chains
    ensures Apply(k, FlushChain(ch, false)) == (k.(chains := k.chains[ch := []]), true)
  {
  }

  lemma HookEffect(k: Kernel, hook: ChainId, jump: FwRule)
    requires hook in k.chains && jump.FwRule? && jump.target.Jump? && jump.target.chain in k.chains
    ensures var (k', ok) := Apply(k, EnsureFirst(hook, jump));
            ok && (k'.chains == if jump in k.chains[hook] then k.chains else k.chains[hook := [jump] + k.chains[hook]])
            && jump in k'.chains[hook]
  {
  }

  lemma InitChain(k: Kernel, ch: ChainId, hook: ChainId, jump: FwRule)
    requires hook in k.chains && hook != ch && jump.FwRule? && jump.target == Jump(ch)
    ensures Succeeds(k, GatewayTriple(ch, hook, jump))
    ensures Initialised(k.chains, Do(k, GatewayTriple(ch, hook, jump)).chains, ch, hook, jump)
  {
    var a, b, c := NewChain(ch), FlushChain(ch, false), EnsureFirst(hook, jump);
    DoThree(k, a, b, c);
    hide Do;
    hide Succeeds;
    hide Apply;
    hide Tolerant;
    NewChainEffect(k, ch);
    var k1 := Apply(k, a).0;
    FlushEffect(k1, ch);
    var k2 := Apply(k1, b).0;
    assert k2.chains == k.chains[ch := []];
    HookEffect(k2, hook, jump);
    ThreeSucceed(k, a, b, c);
    InitialisedMaps(k.chains, Apply(k2, c).0.chains, ch, hook, jump);
  }

  lemma StrictInitSucceeds(k: Kernel, f: Family)
    requires k.BuiltIns()
    ensures Succeeds(k, StrictInit(f)) && Do(k, StrictInit(f)).BuiltIns()
    ensures Do(k, StrictInit(f)).chains.Keys == k.chains.Keys + {StrictChain(f)}
  {
    var c := StrictInit(f);
    assert c == [c[0], c[1], c[2]];
    DoThree(k, c[0], c[1], c[2]);
    hide Do;
    hide Succeeds;
    hide Apply;
    hide Tolerant;
    NewChainEffect(k, StrictChain(f));
    var k1 := Apply(k, c[0]).0;
    HookEffect(k1, Forward(f), StrictJump(f));
    var k2 := Apply(k1, c[1]).0;
    FlushEffect(k2, StrictChain(f));
    ThreeSucceed(k, c[0], c[1], c[2]);
  }

  lemma StrictUpSucceeds(k: Kernel, cfg: Config, nets: seq<GatewayNet>)
    requires k.BuiltIns()
    ensures Succeeds(k, StrictUp(cfg, nets))
  {
    var rules := StrictEgress(cfg, nets);
    StrictEgressShape(cfg, nets);
    hide StrictEgress;
    StrictInitSucceeds(k, V4);
    var k4 := Do(k, StrictInit(V4));
    StrictInitSucceeds(k4, V6);
    hide Succeeds;
    hide StrictInit;
    SucceedsAppend(k, StrictInit(V4), StrictInit(V6));
    DoAppend(k, StrictInit(V4), StrictInit(V6));
    var k6 := Do(k4, StrictInit(V6));
    assert {StrictChain(V4), StrictChain(V6)} <= k6.chains.Keys;
    hide Do;
    StrictAppendsSucceed(k6, rules);
    SucceedsAppend(k, StrictInit(V4) + StrictInit(V6), StrictAppends(rules));
  }

  lemma StrictAppendsSucceed(k: Kernel, rules: seq<FwRule>)
    requires forall r :: r in rules ==> IsStrictRule(r)
    requires {StrictChain(V4), StrictChain(V6)} <= k.chains.Keys
    ensures Succeeds(k, StrictAppends(rules))
  {
    var chains := {StrictChain(V4), StrictChain(V6)};
    forall c | c in StrictAppends(rules)
      ensures AddsTo(c, chains)
    {
      var i :| 0 <= i < |rules| && c == StrictAppends(rules)[i];
      assert rules[i] in rules;
      assert c.chain == StrictChain(FamilyOf(rules[i]));
      assert FamilyOf(rules[i]) == V4 || FamilyOf(rules[i]) == V6;
    }
    hide Succeeds;
    AddsSucceed(k, StrictAppends(rules), chains);
  }

  /** The gateway chains exist; the one of family f is empty and hooked into FORWARD. */
  ghost predicate GatewayReady(k: Kernel, k': Kernel, f: Family) {
    && k.BuiltIns() && k'.BuiltIns()
    && GatewayChain(V4) in k'.chains && GatewayChain(V6) in k'.chains && GatewayNat in k'.chains
    && GatewayChain(f) in k'.chains && k'.chains[GatewayChain(f)] == [] && GatewayJump(f) in k'.chains[Forward(f)]
    && k'.chains[GatewayNat] == [] && NatHooked(k, k')
    && Hooked(k, k', f)
    && SameChain(k, k', StrictChain(f))
  }

  ghost predicate NatHooked(k: Kernel, k': Kernel)
    requires k.BuiltIns() && k'.BuiltIns()
  {
    k'.chains[Postrouting] ==
      if NAT_JUMP in k.chains[Postrouting] then k.chains[Postrouting] else [NAT_JUMP] + k.chains[Postrouting]
  }

  /** FORWARD has gained the jump to the gateway chain, on top, unless it had it. */
  ghost predicate Hooked(k: Kernel, k': Kernel, f: Family)
    requires k.BuiltIns() && k'.BuiltIns()
  {
    k'.chains[Forward(f)] ==
      if GatewayJump(f) in k.chains[Forward(f)] then k.chains[Forward(f)] else [GatewayJump(f)] + k.chains[Forward(f)]
  }

  lemma ThreeChains(k: Kernel, k1: Kernel, k2: Kernel, k3: Kernel, f: Family)
    requires k.BuiltIns()
    requires Initialised(k.chains, k1.chains, GatewayChain(V4), Forward(V4), GatewayJump(V4))
    requires Initialised(k1.chains, k2.chains, GatewayNat, Postrouting, NAT_JUMP)
    requires Initialised(k2.chains, k3.chains, GatewayChain(V6), Forward(V6), GatewayJump(V6))
    ensures GatewayReady(k, k3, f)
  {
    assert f == V4 || f == V6;
  }

  lemma GatewayInitStates(k: Kernel, f: Family)
    requires k.BuiltIns()
    ensures var k1 := Do(k, GatewayTriple(GatewayChain(V4), Forward(V4), GatewayJump(V4)));
            var k2 := Do(k1, GatewayTriple(GatewayNat, Postrouting, NAT_JUMP));
            var k3 := Do(k2, GatewayTriple(GatewayChain(V6), Forward(V6), GatewayJump(V6)));
            && Succeeds(k, GatewayTriple(GatewayChain(V4), Forward(V4), GatewayJump(V4)))
            && Succeeds(k1, GatewayTriple(GatewayNat, Postrouting, NAT_JUMP))
            && Succeeds(k2, GatewayTriple(GatewayChain(V6), Forward(V6), GatewayJump(V6)))
            && GatewayReady(k, k3, f)
  {
    hide Do;
    hide Succeeds;
    InitChain(k, GatewayChain(V4), Forward(V4), GatewayJump(V4));
    var k1 := Do(k, GatewayTriple(GatewayChain(V4), Forward(V4), GatewayJump(V4)));
    InitChain(k1, GatewayNat, Postrouting, NAT_JUMP);
    var k2 := Do(k1, GatewayTriple(GatewayNat, Postrouting, NAT_JUMP));
    InitChain(k2, GatewayChain(V6), Forward(V6), GatewayJump(V6));
    var k3 := Do(k2, GatewayTriple(GatewayChain(V6), Forward(V6), GatewayJump(V6)));
    hide GatewayTriple;
    hide GatewayReady;
    ThreeChains(k, k1, k2, k3, f);
  }

  lemma GatewayInitEffect(k: Kernel, f: Family)
    requires k.BuiltIns()
    ensures Succeeds(k, GATEWAY_INIT) && GatewayReady(k, Do(k, GATEWAY_INIT), f)
  {
    var a := GatewayTriple(GatewayChain(V4), Forward(V4), GatewayJump(V4));
    var b := GatewayTriple(GatewayNat, Postrouting, NAT_JUMP);
    var c := GatewayTriple(GatewayChain(V6), Forward(V6), GatewayJump(V6));
    assert GATEWAY_INIT == (a + b) + c;
    hide Do;
    hide Succeeds;
    hide GatewayTriple;
    hide GatewayReady;
    GatewayInitStates(k, f);
    SucceedsAppend(k, a, b);
    DoAppend(k, a, b);
    SucceedsAppend(k, a + b, c);
    DoAppend(k, a + b, c);
  }

  // ---------------------------------------------------------------- the phases

  /** The filter part of a configuration, for one family, as installed: the strict and gateway
      chains hold exactly the rules the configuration calls for, and FORWARD jumps to both. */
  ghost predicate FamilyFilters(k: Kernel, inp: Inputs, f: Family) {
    && k.BuiltIns()
    && StrictChain(f) in k.chains && k.chains[StrictChain(f)] == OfFamily(StrictEgress(inp.cfg, inp.nets), f)
    && GatewayChain(f) in k.chains
       && k.chains[GatewayChain(f)] == Appended(GatewayAppends(inp.cfg, inp.lan), GatewayChain(f))
    && StrictJump(f) in k.chains[Forward(f)] && GatewayJump(f) in k.chains[Forward(f)]
  }

  /** The NAT chain of the gateways holds exactly their masquerades, and POSTROUTING jumps to it. */
  ghost predicate NatFilters(k: Kernel, inp: Inputs) {
    && k.BuiltIns()
    && GatewayNat in k.chains && k.chains[GatewayNat] == Appended(GatewayAppends(inp.cfg, inp.lan), GatewayNat)
    && NAT_JUMP in k.chains[Postrouting]
  }

  /** Everything a configuration installs in the chains, seen from one family. */
  ghost predicate Filters(k: Kernel, inp: Inputs, f: Family) {
    FamilyFilters(k, inp, f) && NatFilters(k, inp)
  }

  /** After the gateway chains have been filled nothing removes their masquerades or the jump. */
  ghost predicate SparesNat(c: Cmd) {
    && !TouchesChain(c, GatewayNat) && !c.DropChain?
    && (TouchesChain(c, Postrouting) ==> c.EnsureFirst? || c.EnsureLast?)
  }

  lemma {:induction false} JumpStays(k: Kernel, cmds: seq<Cmd>)
    requires Postrouting in k.chains && NAT_JUMP in k.chains[Postrouting]
    requires forall c :: c in cmds ==> SparesNat(c) || (c.Append? && c.chain != Postrouting)
    ensures var k' := Do(k, cmds); Postrouting in k'.chains && NAT_JUMP in k'.chains[Postrouting]
  {
    if cmds != [] {
      JumpStays(k, cmds[..|cmds| - 1]);
      assert cmds[|cmds| - 1] in cmds;
    }
  }

  lemma NatFilled(k: Kernel, inp: Inputs, rest: seq<Cmd>)
    requires k.BuiltIns() && GatewayNat in k.chains && k.chains[GatewayNat] == [] && NAT_JUMP in k.chains[Postrouting]
    requires forall c :: c in rest ==> SparesNat(c)
    ensures NatFilters(Do(k, GatewayAppends(inp.cfg, inp.lan) + rest), inp)
  {
    var appends := GatewayAppends(inp.cfg, inp.lan);
    forall c | c in appends
      ensures IsGatewayAppend(c)
    {
      GatewayAppendsShape(inp.cfg, inp.lan, c);
    }
    hide GatewayAppends;
    AppendEffect(k, appends, GatewayNat);
    KeepsBuiltIns(k, appends);
    JumpStays(k, appends);
    var k1 := Do(k, appends);
    DoAppend(k, appends, rest);
    hide Do;
    assert [] + Appended(appends, GatewayNat) == Appended(appends, GatewayNat);
    KeepsChain(k1, rest, GatewayNat);
    KeepsBuiltIns(k1, rest);
    JumpStays(k1, rest);
  }

  /** Any list that initialises and fills the gateway chains and then spares them ends with exactly
      the configured masquerades. */
  lemma NatInstalled(k: Kernel, inp: Inputs, before: seq<Cmd>, rest: seq<Cmd>, all: seq<Cmd>)
    requires k.BuiltIns() && forall c :: c in before ==> TouchesRoutes(c)
    requires forall c :: c in rest ==> SparesNat(c)
    requires all == before + (GATEWAY_INIT + (GatewayAppends(inp.cfg, inp.lan) + rest))
    ensures NatFilters(Do(k, all), inp)
  {
    hide Do;
    hide GatewayAppends;
    hide SparesNat;
    hide Succeeds;
    hide NatFilters;
    KeepsBuiltIns(k, before);
    var k1 := Do(k, before);
    GatewayInitEffect(k1, V4);
    var k2 := Do(k1, GATEWAY_INIT);
    NatFilled(k2, inp, rest);
    DoAppend(k1, GATEWAY_INIT, GatewayAppends(inp.cfg, inp.lan) + rest);
    DoAppend(k, before, GATEWAY_INIT + (GatewayAppends(inp.cfg, inp.lan) + rest));
  }

  lemma ZeroTierSparesNat(inp: Inputs)
    ensures forall c :: c in ZeroTierUp(inp) ==> SparesNat(c)
  {
  }

  lemma SetupNat(k: Kernel, next: Inputs)
    requires k.BuiltIns()
    ensures NatFilters(Do(k, Setup(next)), next)
  {
    hide Do;
    hide NatFilters;
    hide PolicyRouteCmds;
    hide SharedRoutesUp;
    hide GatewayAppends;
    hide OtherRules;
    hide PeerRules;
    hide ZeroTierUp;
    PhaseShapes(next);
    ZeroTierSparesNat(next);
    var g, z := GatewayAppends(next.cfg, next.lan), ZeroTierUp(next);
    var x := SetRules(OtherRules(next) + PeerRules(next.cfg)) + PolicyRouteCmds(Replace, next);
    assert (g + z) + x == g + (z + x);
    NatInstalled(k, next, SharedRoutesUp(next), z + x, Setup(next));
  }

  ghost predicate NeverFails(cmds: seq<Cmd>) {
    forall c :: c in cmds ==> Tolerant(c) || c.ReplaceRoute?
  }

  lemma NeverFailsAppend(a: seq<Cmd>, b: seq<Cmd>)
    requires NeverFails(a) && NeverFails(b)
    ensures NeverFails(a + b)
  {
  }

  lemma TeardownSucceeds(k: Kernel, prev: Inputs)
    ensures Succeeds(k, Teardown(prev))
  {
    RoutesDownShape(prev);
    var a, b, c, d, e := ZeroTierDown(prev), DelRules(PeerRules(prev.cfg)), GATEWAY_DOWN, DelRules(OtherRules(prev)),
        RoutesDown(prev);
    assert NeverFails(a) && NeverFails(b) && NeverFails(c) && NeverFails(d) && NeverFails(e);
    hide NeverFails;
    hide Succeeds;
    hide RoutesDown;
    hide ZeroTierDown;
    hide PeerRules;
    hide OtherRules;
    NeverFailsAppend(a, b);
    NeverFailsAppend(c, d);
    NeverFailsAppend(a + b, c + d);
    NeverFailsAppend((a + b) + (c + d), e);
    Unfailing(k, Teardown(prev));
  }

  lemma Unfailing(k: Kernel, cmds: seq<Cmd>)
    requires NeverFails(cmds)
    ensures Succeeds(k, cmds)
  {
    hide Succeeds;
    UnconditionalSucceeds(k, cmds);
  }

  /** Guards come and go without touching anything else. */
  ghost predicate OnlyGuards(k: Kernel, k': Kernel) {
    && k.BuiltIns() && k'.BuiltIns() && k'.rules == k.rules && k'.routes == k.routes
    && (forall ch: ChainId :: !ch.Forward? ==> SameChain(k, k', ch))
    && (forall f, r :: r in k.chains[Forward(f)] && (forall s :: r != Guard(s)) ==> r in k'.chains[Forward(f)])
  }

  lemma OneGuard(k: Kernel, x: Prefix, add: bool)
    requires k.BuiltIns()
    ensures OnlyGuards(k, Apply(k, GuardCmd(x, add)).0) && (add ==> Apply(k, GuardCmd(x, add)).1)
  {
    forall f, r | r in k.chains[Forward(f)] && forall s :: r != Guard(s)
      ensures r in Apply(k, GuardCmd(x, add)).0.chains[Forward(f)]
    {
      CountIn(k.chains[Forward(f)], r);
      CountRemoveFirst(k.chains[Forward(f)], Guard(x), r);
      CountIn(RemoveFirst(k.chains[Forward(f)], Guard(x)), r);
    }
  }

  lemma {:induction false} GuardsSucceed(k: Kernel, sources: seq<Prefix>, add: bool)
    requires k.BuiltIns()
    ensures Succeeds(k, GuardCmds(sources, add)) && OnlyGuards(k, Do(k, GuardCmds(sources, add)))
  {
    if sources != [] {
      var init, x := sources[..|sources| - 1], sources[|sources| - 1];
      assert GuardCmds(sources, add)[..|sources| - 1] == GuardCmds(init, add);
      GuardsSucceed(k, init, add);
      OneGuard(Do(k, GuardCmds(init, add)), x, add);
    }
  }

  lemma AppendsFrame(k: Kernel, next: Inputs, f: Family)
    requires k.BuiltIns() && GatewayChain(V4) in k.chains && GatewayChain(V6) in k.chains && GatewayNat in k.chains
    ensures var cmds := GatewayAppends(next.cfg, next.lan);
            var k' := Do(k, cmds);
            && Succeeds(k, cmds) && k'.BuiltIns()
            && GatewayChain(f) in k'.chains
            && (f == V4 || f == V6) && k'.chains[GatewayChain(f)] == k.chains[GatewayChain(f)]
               + Appended(cmds, GatewayChain(f))
            && SameChain(k, k', StrictChain(f)) && SameChain(k, k', Forward(f))
  {
    var cmds := GatewayAppends(next.cfg, next.lan);
    var own := {GatewayChain(V4), GatewayChain(V6), GatewayNat};
    forall c | c in cmds
      ensures IsGatewayAppend(c) && AddsTo(c, own)
    {
      GatewayAppendsShape(next.cfg, next.lan, c);
      assert c.chain.GatewayChain? ==> c.chain.family == V4 || c.chain.family == V6;
    }
    hide GatewayAppends;
    AddsSucceed(k, cmds, own);
    KeepsBuiltIns(k, cmds);
    AppendEffect(k, cmds, GatewayChain(f));
    KeepsChain(k, cmds, StrictChain(f));
    KeepsChain(k, cmds, Forward(f));
  }

  lemma ZeroTierUpFrame(k: Kernel, next: Inputs, ch: ChainId)
    requires k.BuiltIns() && ch != Postrouting
    ensures var k' := Do(k, ZeroTierUp(next));
            Succeeds(k, ZeroTierUp(next)) && k'.BuiltIns() && SameChain(k, k', ch)
  {
    hide Do;
    hide Succeeds;
    var cmds := ZeroTierUp(next);
    assert forall c :: c in cmds ==> AddsTo(c, {Postrouting}) && !TouchesChain(c, ch);
    hide ZeroTierUp;
    hide TouchesChain;
    AddsSucceed(k, cmds, {Postrouting});
    KeepsBuiltIns(k, cmds);
    KeepsChain(k, cmds, ch);
  }

  function ChainCmds(next: Inputs): seq<Cmd> {
    GATEWAY_INIT + (GatewayAppends(next.cfg, next.lan) + ZeroTierUp(next))
  }

  ghost predicate Filled(k: Kernel, k': Kernel, next: Inputs, f: Family) {
    && k.BuiltIns() && k'.BuiltIns()
    && GatewayChain(f) in k'.chains
       && k'.chains[GatewayChain(f)] == Appended(GatewayAppends(next.cfg, next.lan), GatewayChain(f))
    && SameChain(k, k', StrictChain(f))
    && Hooked(k, k', f)
  }

  /** The part of step 4 that fills chains. */
  lemma FillChains(k: Kernel, next: Inputs, f: Family)
    requires k.BuiltIns()
    ensures Succeeds(k, ChainCmds(next)) && Filled(k, Do(k, ChainCmds(next)), next, f)
  {
    var appends, zt := GatewayAppends(next.cfg, next.lan), ZeroTierUp(next);
    hide Do;
    hide Succeeds;
    hide GatewayAppends;
    hide ZeroTierUp;
    hide Appended;
    GatewayInitEffect(k, f);
    var k1 := Do(k, GATEWAY_INIT);
    AppendsFrame(k1, next, f);
    var k2 := Do(k1, appends);
    ZeroTierUpFrame(k2, next, GatewayChain(f));
    ZeroTierUpFrame(k2, next, StrictChain(f));
    ZeroTierUpFrame(k2, next, Forward(f));
    SucceedsAppend(k1, appends, zt);
    DoAppend(k1, appends, zt);
    SucceedsAppend(k, GATEWAY_INIT, appends + zt);
    DoAppend(k, GATEWAY_INIT, appends + zt);
    assert [] + Appended(appends, GatewayChain(f)) == Appended(appends, GatewayChain(f));
  }

  lemma RoutingFrame(k: Kernel, cmds: seq<Cmd>, f: Family)
    requires k.BuiltIns() && forall c :: c in cmds ==> TouchesRules(c) || TouchesRoutes(c)
    ensures var k' := Do(k, cmds);
            && k'.BuiltIns() && SameChain(k, k', StrictChain(f)) && SameChain(k, k', GatewayChain(f))
               && SameChain(k, k', Forward(f))
  {
    KeepsBuiltIns(k, cmds);
    KeepsChain(k, cmds, StrictChain(f));
    KeepsChain(k, cmds, GatewayChain(f));
    KeepsChain(k, cmds, Forward(f));
  }

  lemma SetupJoined(k: Kernel, next: Inputs, k1: Kernel, k2: Kernel, k3: Kernel)
    requires k1 == Do(k, SharedRoutesUp(next)) && k2 == Do(k1, ChainCmds(next))
             && k3 == Do(k2, SetRules(AllRules(next)))
    requires Succeeds(k, SharedRoutesUp(next)) && Succeeds(k1, ChainCmds(next))
    requires Succeeds(k2, SetRules(AllRules(next))) && Succeeds(k3, PolicyRouteCmds(Replace, next))
    ensures Succeeds(k, Setup(next)) && Do(k, Setup(next)) == Do(k3, PolicyRouteCmds(Replace, next))
  {
    hide Do;
    hide Succeeds;
    hide SharedRoutesUp;
    hide PolicyRouteCmds;
    hide GatewayAppends;
    hide ZeroTierUp;
    var a, i, g, s, p := SharedRoutesUp(next), GATEWAY_INIT, GatewayAppends(next.cfg, next.lan) + ZeroTierUp(next),
                         SetRules(AllRules(next)), PolicyRouteCmds(Replace, next);
    SucceedsAppend(k1, i + g, s);
    DoAppend(k1, i + g, s);
    SucceedsAppend(k1, (i + g) + s, p);
    DoAppend(k1, (i + g) + s, p);
    assert i + (g + (s + p)) == ((i + g) + s) + p;
    SucceedsAppend(k, a, i + (g + (s + p)));
    DoAppend(k, a, i + (g + (s + p)));
  }

  lemma FiltersCarry(k: Kernel, k1: Kernel, k2: Kernel, k3: Kernel, k4: Kernel, next: Inputs, f: Family)
    requires k.BuiltIns() && k1.BuiltIns() && k3.BuiltIns() && k4.BuiltIns()
    requires StrictChain(f) in k.chains && k.chains[StrictChain(f)] == OfFamily(StrictEgress(next.cfg, next.nets), f)
    requires StrictJump(f) in k.chains[Forward(f)]
    requires SameChain(k, k1, StrictChain(f)) && SameChain(k, k1, Forward(f))
    requires Filled(k1, k2, next, f)
    requires SameChain(k2, k3, StrictChain(f)) && SameChain(k2, k3, Forward(f)) && SameChain(k2, k3, GatewayChain(f))
    requires SameChain(k3, k4, StrictChain(f)) && SameChain(k3, k4, Forward(f)) && SameChain(k3, k4, GatewayChain(f))
    ensures FamilyFilters(k4, next, f) && Hooked(k, k4, f)
  {
  }

  lemma PhaseShapes(next: Inputs)
    ensures forall c :: c in SharedRoutesUp(next) || c in PolicyRouteCmds(Replace, next) ==> c.ReplaceRoute?
  {
    hide FlatMap;
    SharedUpShape(next);
    PolicyUpShape(next);
  }

  /** Step 4 without faults: it succeeds and leaves the filters of the next configuration. */
  lemma SetupFilters(k: Kernel, next: Inputs, f: Family)
    requires WithinGaps(next) && k.BuiltIns() && k.rules.Keys !! Slots(AllRules(next))
    requires StrictChain(f) in k.chains && k.chains[StrictChain(f)] == OfFamily(StrictEgress(next.cfg, next.nets), f)
    requires StrictJump(f) in k.chains[Forward(f)]
    ensures Succeeds(k, Setup(next)) && Filters(Do(k, Setup(next)), next, f) && Hooked(k, Do(k, Setup(next)), f)
  {
    AllSlotsDistinct(next);
    hide WithinGaps;
    hide AllRules;
    hide PolicyRouteCmds;
    hide SharedRoutesUp;
    hide GatewayAppends;
    hide StrictEgress;
    hide Filled;
    hide FamilyFilters;
    hide NatFilters;
    hide Succeeds;
    var shared, policy := SharedRoutesUp(next), PolicyRouteCmds(Replace, next);
    var sets := SetRules(AllRules(next));
    var k1 := Do(k, shared);
    var k2 := Do(k1, ChainCmds(next));
    var k3 := Do(k2, sets);
    var k4 := Do(k3, policy);
    PhaseShapes(next);
    RoutingFrame(k, shared, f);
    KeepsRules(k, shared);
    FillChains(k1, next, f);
    PureChains(next, k1, ChainCmds(next));
    hide ChainCmds;
    RoutingFrame(k2, sets, f);
    RoutingFrame(k3, policy, f);
    hide Do;
    UnconditionalSucceeds(k, shared);
    UnconditionalSucceeds(k3, policy);
    assert forall x :: x in AllRules(next) ==> x.slot in Slots(AllRules(next));
    SetRulesSucceed(k2, AllRules(next));
    SetupJoined(k, next, k1, k2, k3);
    FiltersCarry(k, k1, k2, k3, k4, next, f);
    SetupNat(k, next);
  }

  // ---------------------------------------------------------------- the whole of Reconcile

  lemma ReconcileStates(k: Kernel, prev: Inputs, next: Inputs, sources: seq<Prefix>,
                        k1: Kernel, k2: Kernel, k3: Kernel, k4: Kernel, k5: Kernel)
    requires k1 == Do(k, GuardCmds(sources, true)) && k2 == Do(k1, Teardown(prev))
             && k3 == Do(k2, StrictUp(next.cfg, next.nets))
    requires k4 == Do(k3, Setup(next)) && k5 == Do(k4, GuardCmds(sources, false))
    requires Succeeds(k, GuardCmds(sources, true)) && Succeeds(k1, Teardown(prev))
             && Succeeds(k2, StrictUp(next.cfg, next.nets))
    requires Succeeds(k3, Setup(next)) && Succeeds(k4, GuardCmds(sources, false))
    ensures var cmds := GuardCmds(sources, true) + (Middle(prev, next) + GuardCmds(sources, false));
            Succeeds(k, cmds) && Do(k, cmds) == k5
  {
    hide Do;
    hide Succeeds;
    hide Teardown;
    hide StrictUp;
    hide Setup;
    var a, t, s, u, d := GuardCmds(sources, true), Teardown(prev), StrictUp(next.cfg, next.nets), Setup(next),
        GuardCmds(sources, false);
    SucceedsAppend(k1, t, s);
    DoAppend(k1, t, s);
    SucceedsAppend(k1, t + s, u);
    DoAppend(k1, t + s, u);
    SucceedsAppend(k1, (t + s) + u, d);
    DoAppend(k1, (t + s) + u, d);
    SucceedsAppend(k, a, ((t + s) + u) + d);
    DoAppend(k, a, ((t + s) + u) + d);
  }

  lemma FiltersKept(k: Kernel, k': Kernel, inp: Inputs, f: Family)
    requires Filters(k, inp, f) && OnlyGuards(k, k')
    ensures Filters(k', inp, f)
  {
    hide OfFamily;
    hide Appended;
    hide StrictEgress;
    hide GatewayAppends;
    assert forall s :: StrictJump(f) != Guard(s) && GatewayJump(f) != Guard(s);
    assert !StrictChain(f).Forward? && !GatewayChain(f).Forward?;
    assert SameChain(k, k', GatewayNat) && SameChain(k, k', Postrouting);
  }

  /** Steps 2 to 4 without faults, from a state with foreign rules and routes only around the
      previous configuration's. */
  lemma MiddleEffect(k: Kernel, prev: Inputs, next: Inputs, rules: map<Slot, seq<RuleBody>>, routes: map<RouteKey, Hop>,
                     k2: Kernel, k3: Kernel, k4: Kernel, f: Family)
    requires Valid(prev) && Valid(next) && k.BuiltIns() && Holds(k, prev, rules, routes)
    requires ForeignTo(rules, routes, prev) && ForeignTo(rules, routes, next)
    requires k2 == Do(k, Teardown(prev)) && k3 == Do(k2, StrictUp(next.cfg, next.nets)) && k4 == Do(k3, Setup(next))
    ensures Succeeds(k, Teardown(prev)) && Succeeds(k2, StrictUp(next.cfg, next.nets)) && Succeeds(k3, Setup(next))
    ensures Holds(k4, next, rules, routes) && Filters(k4, next, f)
  {
    hide Do;
    hide Succeeds;
    hide AllRules;
    hide RuleState;
    hide RouteState;
    hide ManagedKeys;
    hide WithinGaps;
    hide UniqueTables;
    hide StrictEgress;
    hide OfFamily;
    hide Filters;
    TeardownSucceeds(k, prev);
    TeardownEffect(k, prev, rules, routes);
    StrictUpSucceeds(k2, next.cfg, next.nets);
    StrictUpEffect(k2, next.cfg, next.nets, f);
    PureChains(next, k2, StrictUp(next.cfg, next.nets));
    SetupEffect(k3, next, rules);
    SetupFilters(k3, next, f);
  }

  /** Exact convergence: from a kernel whose managed rules and tables are those of `prev`, a
      Reconcile that meets no fault succeeds; its managed rules, private tables and chains are then
      exactly those of `next`, and every foreign rule and route is still there. */
  lemma ReconcileConverges(k: Kernel, prev: Inputs, next: Inputs, rules: map<Slot, seq<RuleBody>>,
                           routes: map<RouteKey, Hop>,
                           env: nat -> Outcome, t: nat, f: Family)
    requires Valid(prev) && Valid(next) && k.BuiltIns() && NoFaults(env)
    requires Holds(k, prev, rules, routes) && ForeignTo(rules, routes, prev) && ForeignTo(rules, routes, next)
    ensures var r := Run(k, ReconcileCmds(prev, next), env, t);
            r.ok && Holds(r.Final(), next, rules, routes) && Filters(r.Final(), next, f)
  {
    ConvergesWith(k, prev, next, rules, routes, env, t, f, Affected(prev.cfg, next.cfg));
  }

  lemma ConvergesWith(k: Kernel, prev: Inputs, next: Inputs, rules: map<Slot, seq<RuleBody>>,
                      routes: map<RouteKey, Hop>,
                      env: nat -> Outcome, t: nat, f: Family, sources: seq<Prefix>)
    requires Valid(prev) && Valid(next) && k.BuiltIns() && NoFaults(env)
    requires Holds(k, prev, rules, routes) && ForeignTo(rules, routes, prev) && ForeignTo(rules, routes, next)
    ensures var r := Run(k, GuardCmds(sources, true) + (Middle(prev, next) + GuardCmds(sources, false)), env, t);
            r.ok && Holds(r.Final(), next, rules, routes) && Filters(r.Final(), next, f)
  {
    hide Do;
    hide Succeeds;
    hide Valid;
    hide ForeignTo;
    hide RuleState;
    hide RouteState;
    hide Filters;
    hide Middle;
    GuardsSucceed(k, sources, true);
    var k1 := Do(k, GuardCmds(sources, true));
    var k2 := Do(k1, Teardown(prev));
    var k3 := Do(k2, StrictUp(next.cfg, next.nets));
    var k4 := Do(k3, Setup(next));
    MiddleEffect(k1, prev, next, rules, routes, k2, k3, k4, f);
    assert k4.BuiltIns() by {
      FiltersBuiltIns(k4, next, f);
    }
    GuardsSucceed(k4, sources, false);
    var k5 := Do(k4, GuardCmds(sources, false));
    FiltersKept(k4, k5, next, f);
    ReconcileStates(k, prev, next, sources, k1, k2, k3, k4, k5);
    SucceedsRuns(k, GuardCmds(sources, true) + (Middle(prev, next) + GuardCmds(sources, false)), env, t);
  }

  /** Environments that agree while a list is issued give the same run. */
  lemma RunAgrees(k: Kernel, cmds: seq<Cmd>, env: nat -> Outcome, other: nat -> Outcome, t: nat)
    requires forall i :: t <= i < t + |cmds| ==> env(i) == other(i)
    ensures Run(k, cmds, env, t) == Run(k, cmds, other, t)
  {
    forall x, c, i: nat | t <= i < t + |cmds|
      ensures StepUnder(env)(x, c, i) == StepUnder(other)(x, c, i)
    {
      assert env(i) == other(i);
    }
    RunFromAgrees(StepUnder(env), StepUnder(other), k, cmds, t);
  }

  /** The input at which a guard outlives a Reconcile that reports success: everything runs up to the
      deletions, and the deletion of this guard, whose failure is not an error, is refused. */
  lemma RefusedDeletionLeavesGuard(k: Kernel, prev: Inputs, next: Inputs, rules: map<Slot, seq<RuleBody>>,
                                   routes: map<RouteKey, Hop>, env: nat -> Outcome, j: nat, release: nat)
    requires Valid(prev) && Valid(next) && k.BuiltIns() && j < |Affected(prev.cfg, next.cfg)|
    requires Holds(k, prev, rules, routes) && ForeignTo(rules, routes, prev) && ForeignTo(rules, routes, next)
    requires release == |Affected(prev.cfg, next.cfg)| + |Middle(prev, next)|
    requires (forall i :: 0 <= i < release ==> env(i) == Done) && env(release + j) == Refused
    ensures var r := Run(k, ReconcileCmds(prev, next), env, 0);
            && r.ok && r.Final().BuiltIns()
            && Copies(r.Final(), Affected(prev.cfg, next.cfg)[j]) == Copies(k, Affected(prev.cfg, next.cfg)[j]) + 1
  {
    hide Affected;
    hide Middle;
    hide Copies;
    hide Run;
    hide ReconcileCmds;
    hide Holds;
    hide Valid;
    hide ForeignTo;
    StillSucceeds(k, prev, next, rules, routes, Affected(prev.cfg, next.cfg), env);
    GuardLeftBehind(k, prev, next, env, 0, j, Run(k, ReconcileCmds(prev, next), env, 0));
  }

  /** A Reconcile that would succeed without faults succeeds whatever becomes of its last step. */
  lemma StillSucceeds(k: Kernel, prev: Inputs, next: Inputs, rules: map<Slot, seq<RuleBody>>,
                      routes: map<RouteKey, Hop>,
                      sources: seq<Prefix>, env: nat -> Outcome)
    requires Valid(prev) && Valid(next) && k.BuiltIns() && sources == Affected(prev.cfg, next.cfg)
    requires Holds(k, prev, rules, routes) && ForeignTo(rules, routes, prev) && ForeignTo(rules, routes, next)
    requires forall i :: 0 <= i < |sources| + |Middle(prev, next)| ==> env(i) == Done
    ensures Run(k, ReconcileCmds(prev, next), env, 0).ok
  {
    hide Affected;
    hide Middle;
    hide RunFrom;
    hide RuleState;
    hide RouteState;
    hide Valid;
    hide ForeignTo;
    hide Filters;
    var done := (i: nat) => Done;
    var add, mid, del := GuardCmds(sources, true), Middle(prev, next), GuardCmds(sources, false);
    ReconcileConverges(k, prev, next, rules, routes, done, 0, V4);
    var ra := Run(k, add, done, 0);
    var rm := Run(ra.Final(), mid, done, |sources|);
    var rd := Run(rm.Final(), del, done, |sources| + |mid|);
    ThreePhases(StepUnder(done), k, add, mid, del, 0, ra, rm, rd, Run(k, ReconcileCmds(prev, next), done, 0));
    RunAgrees(k, add, env, done, 0);
    RunAgrees(ra.Final(), mid, env, done, |sources|);
    var re := Run(rm.Final(), del, env, |sources| + |mid|);
    ThreePhases(StepUnder(env), k, add, mid, del, 0, ra, rm, re, Run(k, ReconcileCmds(prev, next), env, 0));
    MiddleKeepsBuiltIns(k, prev, next, done, 0);
    ReleaseNeverFails(rm.Final(), sources, env, |sources| + |mid|);
  }

  lemma MiddleKeepsBuiltIns(k: Kernel, prev: Inputs, next: Inputs, env: nat -> Outcome, t: nat)
    requires k.BuiltIns()
    ensures var sources := Affected(prev.cfg, next.cfg);
            var ra := Run(k, GuardCmds(sources, true), env, t);
            ra.Final().BuiltIns() && Run(ra.Final(), Middle(prev, next), env, t + |sources|).Final().BuiltIns()
  {
    hide Affected;
    hide Middle;
    hide RunFrom;
    hide Neutral;
    hide Copies;
    MiddleNeutral(prev, next, V4);
    AffectedOnce(prev.cfg, next.cfg);
    var sources := Affected(prev.cfg, next.cfg);
    var ra := Run(k, GuardCmds(sources, true), env, t);
    GuardsAdded(k, sources, env, t, Prefix(V4, 0, 0), ra);
    NeutralRun(ra.Final(), Middle(prev, next), env, t + |sources|, Prefix(V4, 0, 0), next);
  }

  lemma AffectedOnce(prev: Config, next: Config)
    ensures NoDuplicates(Affected(prev, next))
  {
    hide Distinct;
    DistinctElements(StrictSources(prev) + StrictSources(next));
  }

  lemma {:induction false} ReleaseNeverFails(k: Kernel, sources: seq<Prefix>, env: nat -> Outcome, t: nat)
    requires k.BuiltIns()
    ensures Run(k, GuardCmds(sources, false), env, t).ok
    decreases |sources|
  {
    if sources != [] {
      var k' := Step(k, GuardCmd(sources[0], false), env(t)).0;
      ReleaseStep(k, sources, env, t, Run(k, GuardCmds(sources, false), env, t));
      GuardRemoved(k, sources[0], env(t), sources[0]);
      ReleaseNeverFails(k', sources[1..], env, t + 1);
    }
  }

  lemma FiltersBuiltIns(k: Kernel, inp: Inputs, f: Family)
    requires Filters(k, inp, f)
    ensures k.BuiltIns()
  {
  }

  /** Converging twice is converging once: a to b and then b to c ends with the rules, tables and
      chains that a to c ends with, and c to c changes none of them. */
  lemma ReconcileComposes(k: Kernel, a: Inputs, b: Inputs, c: Inputs, rules: map<Slot, seq<RuleBody>>,
                          routes: map<RouteKey, Hop>,
                          env: nat -> Outcome, t: nat, t': nat, f: Family)
    requires Valid(a) && Valid(b) && Valid(c) && k.BuiltIns() && NoFaults(env)
    requires Holds(k, a, rules, routes)
    requires ForeignTo(rules, routes, a) && ForeignTo(rules, routes, b) && ForeignTo(rules, routes, c)
    ensures var ab := Run(k, ReconcileCmds(a, b), env, t);
            var bc := Run(ab.Final(), ReconcileCmds(b, c), env, t');
            var ac := Run(k, ReconcileCmds(a, c), env, t);
            var cc := Run(bc.Final(), ReconcileCmds(c, c), env, t');
            && ab.ok && bc.ok && ac.ok && cc.ok
            && SameManaged(bc.Final(), ac.Final(), f) && SameManaged(bc.Final(), cc.Final(), f)
  {
    hide Valid;
    hide ForeignTo;
    hide ReconcileCmds;
    hide RuleState;
    hide RouteState;
    hide OfFamily;
    hide Appended;
    hide StrictEgress;
    hide GatewayAppends;
    ReconcileConverges(k, a, b, rules, routes, env, t, f);
    var kb := Run(k, ReconcileCmds(a, b), env, t).Final();
    ReconcileConverges(kb, b, c, rules, routes, env, t', f);
    var kc := Run(kb, ReconcileCmds(b, c), env, t').Final();
    ReconcileConverges(k, a, c, rules, routes, env, t, f);
    ReconcileConverges(kc, c, c, rules, routes, env, t', f);
  }

  /** The same rules, routes, strict chain and gateway chains. */
  ghost predicate SameManaged(k: Kernel, k': Kernel, f: Family) {
    && k.rules == k'.rules && k.routes == k'.routes
    && SameChain(k, k', StrictChain(f)) && SameChain(k, k', GatewayChain(f)) && SameChain(k, k', GatewayNat)
  }
}
