/** The PostUp and PostDown hooks of wg0.conf: bringing the interface up and down again restores
    what was there, and bringing it up twice is bringing it up once. */
module Hooks {
  import opened Lists
  import opened Network
  import opened Models
  import opened Kernel
  import opened Runs
  import opened IpRules
  import opened StrictChains
  import opened GatewayChains
  import opened Routes
  import opened Generators
  import opened Effects
  import opened FailClosed
  import opened Convergence
  import opened FaultFreeRuns

  // ---------------------------------------------------------------- shared chains

  /** Commands that treat a shared chain as the hooks do: they only ensure or remove rules of `own`. */
  ghost predicate Tends(c: Cmd, ch: ChainId, own: set<FwRule>) {
    TouchesChain(c, ch) ==>
      (c.NewChain? || ((c.EnsureFirst? || c.EnsureLast? || c.Remove?) && c.rule in own))
  }

  /** What is not the application's own in a shared chain stays, in order. */
  lemma {:induction false} TendedStrip(k: Kernel, cmds: seq<Cmd>, ch: ChainId, own: set<FwRule>)
    requires ch in k.chains && forall c :: c in cmds ==> Tends(c, ch, own)
    ensures ch in Do(k, cmds).chains && Strip(Do(k, cmds).chains[ch], own) == Strip(k.chains[ch], own)
  {
    if cmds != [] {
      var init, last := cmds[..|cmds| - 1], cmds[|cmds| - 1];
      TendedStrip(k, init, ch, own);
      assert last in cmds;
      TendStrip(Do(k, init), last, ch, own);
    }
  }

  lemma TendStrip(k: Kernel, c: Cmd, ch: ChainId, own: set<FwRule>)
    requires ch in k.chains && Tends(c, ch, own)
    ensures ch in Apply(k, c).0.chains && Strip(Apply(k, c).0.chains[ch], own) == Strip(k.chains[ch], own)
  {
    var rules := k.chains[ch];
    if TouchesChain(c, ch) && !c.NewChain? {
      StripSnoc(rules, c.rule, own);
      StripRemoveFirst(rules, c.rule, own);
      assert ([c.rule] + rules)[1..] == rules;
    }
  }

  /** Ensuring never adds a second copy. */
  lemma {:induction false} TendedOnce(k: Kernel, cmds: seq<Cmd>, ch: ChainId, own: set<FwRule>, x: FwRule)
    requires ch in k.chains && forall c :: c in cmds ==> Tends(c, ch, own)
    requires Count(k.chains[ch], x) <= 1
    ensures ch in Do(k, cmds).chains && Count(Do(k, cmds).chains[ch], x) <= 1
  {
    if cmds != [] {
      var init, last := cmds[..|cmds| - 1], cmds[|cmds| - 1];
      TendedOnce(k, init, ch, own, x);
      assert last in cmds;
      TendOnce(Do(k, init), last, ch, own, x);
    }
  }

  lemma TendOnce(k: Kernel, c: Cmd, ch: ChainId, own: set<FwRule>, x: FwRule)
    requires ch in k.chains && Tends(c, ch, own) && Count(k.chains[ch], x) <= 1
    ensures ch in Apply(k, c).0.chains && Count(Apply(k, c).0.chains[ch], x) <= 1
  {
    var rules := k.chains[ch];
    if TouchesChain(c, ch) && !c.NewChain? {
      CountSnoc(rules, c.rule, x);
      CountRemoveFirst(rules, c.rule, x);
      CountIn(rules, x);
      assert ([c.rule] + rules)[1..] == rules;
    }
  }

  /** Commands that take rules out of a chain and put none in. */
  ghost predicate OnlyRemoves(c: Cmd, ch: ChainId) {
    TouchesChain(c, ch) ==> c.Remove? || c.NewChain?
  }

  lemma RemovingStep(k: Kernel, c: Cmd, ch: ChainId, x: FwRule)
    requires ch in k.chains && OnlyRemoves(c, ch) && Count(k.chains[ch], x) <= 1
    ensures var k' := Apply(k, c).0;
            && ch in k'.chains && Count(k'.chains[ch], x) <= 1
            && (c == Remove(ch, x) || x !in k.chains[ch] ==> x !in k'.chains[ch])
  {
    var rules := k.chains[ch];
    CountIn(rules, x);
    if c.Remove? {
      CountRemoveFirst(rules, c.rule, x);
      CountIn(RemoveFirst(rules, c.rule), x);
    }
  }

  /** A rule that stands at most once and is removed somewhere in the list is gone afterwards. */
  lemma {:induction false} RemovedIsGone(k: Kernel, cmds: seq<Cmd>, ch: ChainId, x: FwRule)
    requires ch in k.chains && forall c :: c in cmds ==> OnlyRemoves(c, ch)
    requires Count(k.chains[ch], x) <= 1
    ensures ch in Do(k, cmds).chains && Count(Do(k, cmds).chains[ch], x) <= 1
    ensures Remove(ch, x) in cmds || x !in k.chains[ch] ==> x !in Do(k, cmds).chains[ch]
  {
    hide Apply;
    hide Count;
    hide OnlyRemoves;
    if cmds != [] {
      var init, last := cmds[..|cmds| - 1], cmds[|cmds| - 1];
      assert cmds == init + [last];
      RemovedIsGone(k, init, ch, x);
      assert last in cmds;
      RemovingStep(Do(k, init), last, ch, x);
    }
  }

  /** The own rules of the shared chains. */
  ghost function OwnForward(f: Family): set<FwRule> {
    {GatewayJump(f), StrictJump(f)}
  }

  ghost function OwnNat(inp: Inputs): set<FwRule> {
    {NAT_JUMP, ZT_MASQUERADE} + set r | r in BypassSpecs(inp)
  }

  // ---------------------------------------------------------------- PostUp

  /** The hooks see the same configuration, whatever order the maps are iterated in. */
  ghost predicate SameUpToOrder(a: Inputs, b: Inputs) {
    && a.cfg == b.cfg && a.nets == b.nets && a.lan == b.lan
    && forall p :: p in a.bypass <==> p in b.bypass
  }

  /** Each managed slot is free, or holds exactly the configuration's own rule. */
  ghost predicate SlotsReady(k: Kernel, inp: Inputs) {
    forall x :: x in AllRules(inp) && x.slot in k.rules ==> k.rules[x.slot] == [x.body]
  }

  lemma PostUpJoined(k: Kernel, inp: Inputs, k1: Kernel, k2: Kernel, k3: Kernel, k4: Kernel)
    requires k1 == Do(k, SharedRoutesUp(inp)) && k2 == Do(k1, ChainCmds(inp))
             && k3 == Do(k2, StrictUp(inp.cfg, inp.nets))
    requires k4 == Do(k3, SetRules(AllRules(inp)))
    requires Succeeds(k, SharedRoutesUp(inp)) && Succeeds(k1, ChainCmds(inp))
             && Succeeds(k2, StrictUp(inp.cfg, inp.nets))
    requires Succeeds(k3, SetRules(AllRules(inp))) && Succeeds(k4, PolicyRouteCmds(Replace, inp))
    ensures Succeeds(k, PostUp(inp)) && Do(k, PostUp(inp)) == Do(k4, PolicyRouteCmds(Replace, inp))
  {
    hide Do;
    hide Succeeds;
    hide SharedRoutesUp;
    hide PolicyRouteCmds;
    hide GatewayAppends;
    hide ZeroTierUp;
    hide StrictUp;
    var a, c, s := SharedRoutesUp(inp), ChainCmds(inp), StrictUp(inp.cfg, inp.nets);
    var r, p := SetRules(AllRules(inp)), PolicyRouteCmds(Replace, inp);
    assert GatewayUp(inp.cfg, inp.lan) + ZeroTierUp(inp) == c;
    SucceedsAppend(k2, s, r);
    DoAppend(k2, s, r);
    SucceedsAppend(k, a, c);
    DoAppend(k, a, c);
    SucceedsAppend(k, a + c, s + r);
    DoAppend(k, a + c, s + r);
    SucceedsAppend(k, (a + c) + (s + r), p);
    DoAppend(k, (a + c) + (s + r), p);
  }

  lemma StrictUpFrame(k: Kernel, inp: Inputs, f: Family)
    requires k.BuiltIns()
    ensures SameChain(k, Do(k, StrictUp(inp.cfg, inp.nets)), GatewayChain(f))
    ensures GatewayJump(f) in k.chains[Forward(f)] ==>
              Forward(f) in Do(k, StrictUp(inp.cfg, inp.nets)).chains
              && GatewayJump(f) in Do(k, StrictUp(inp.cfg, inp.nets)).chains[Forward(f)]
  {
    var cmds := StrictUp(inp.cfg, inp.nets);
    StrictUpTouches(inp);
    hide StrictUp;
    KeepsChain(k, cmds, GatewayChain(f));
    EnsureKeeps(k, cmds, Forward(f), GatewayJump(f));
  }

  lemma StrictUpTouches(inp: Inputs)
    ensures forall c :: c in StrictUp(inp.cfg, inp.nets) ==>
              (forall f :: !TouchesChain(c, GatewayChain(f)) && Tends(c, Forward(f), {StrictJump(f)})
                           && (TouchesChain(c, Forward(f)) ==> c.EnsureFirst?))
              && !TouchesChain(c, GatewayNat) && !TouchesChain(c, Postrouting)
  {
    hide StrictEgress;
  }

  lemma {:induction false} EnsureKeeps(k: Kernel, cmds: seq<Cmd>, ch: ChainId, x: FwRule)
    requires forall c :: c in cmds && TouchesChain(c, ch) ==> c.EnsureFirst? || c.EnsureLast?
    ensures ch in k.chains && x in k.chains[ch] ==> ch in Do(k, cmds).chains && x in Do(k, cmds).chains[ch]
  {
    if cmds != [] {
      EnsureKeeps(k, cmds[..|cmds| - 1], ch, x);
      assert cmds[|cmds| - 1] in cmds;
    }
  }

  /** The states between the parts of PostUp. */
  ghost predicate UpStates(k: Kernel, inp: Inputs, k1: Kernel, k2: Kernel, k3: Kernel, k4: Kernel, k5: Kernel) {
    && k1 == Do(k, SharedRoutesUp(inp)) && k2 == Do(k1, ChainCmds(inp)) && k3 == Do(k2, StrictUp(inp.cfg, inp.nets))
    && k4 == Do(k3, SetRules(AllRules(inp))) && k5 == Do(k4, PolicyRouteCmds(Replace, inp))
  }

  lemma ChainCmdsPure(k: Kernel, inp: Inputs)
    ensures Do(k, ChainCmds(inp)).rules == k.rules && Do(k, ChainCmds(inp)).routes == k.routes
    ensures Do(k, StrictUp(inp.cfg, inp.nets)).rules == k.rules && Do(k, StrictUp(inp.cfg, inp.nets)).routes == k.routes
  {
    hide Do;
    hide StrictUp;
    hide GatewayAppends;
    hide ZeroTierUp;
    PureChains(inp, k, ChainCmds(inp));
    PureChains(inp, k, StrictUp(inp.cfg, inp.nets));
  }

  lemma UpFrame(k: Kernel, inp: Inputs, k1: Kernel, k2: Kernel, k3: Kernel)
    requires k1 == Do(k, SharedRoutesUp(inp)) && k2 == Do(k1, ChainCmds(inp))
             && k3 == Do(k2, StrictUp(inp.cfg, inp.nets))
    ensures k3.rules == k.rules
  {
    PhaseShapes(inp);
    hide Do;
    hide PolicyRouteCmds;
    hide SharedRoutesUp;
    hide ChainCmds;
    hide StrictUp;
    ChainCmdsPure(k1, inp);
    ChainCmdsPure(k2, inp);
    KeepsRules(k, SharedRoutesUp(inp));
  }

  lemma UpRules(k: Kernel, inp: Inputs, k1: Kernel, k2: Kernel, k3: Kernel, k4: Kernel, k5: Kernel)
    requires WithinGaps(inp) && SlotsReady(k, inp) && UpStates(k, inp, k1, k2, k3, k4, k5)
    ensures k5.rules == k.rules + RuleState(inp) && k3.rules == k.rules
    ensures Succeeds(k3, SetRules(AllRules(inp)))
  {
    hide Do;
    hide WithinGaps;
    hide PolicyRouteCmds;
    hide SharedRoutesUp;
    hide ChainCmds;
    hide StrictUp;
    hide Succeeds;
    hide AllRules;
    hide RuleState;
    UpFrame(k, inp, k1, k2, k3);
    assert SlotsReady(k3, inp);
    hide SlotsReady;
    SetAll(k3, inp);
    PolicyUpShape(inp);
    KeepsRules(k4, PolicyRouteCmds(Replace, inp));
  }

  lemma SetAll(k: Kernel, inp: Inputs)
    requires WithinGaps(inp) && SlotsReady(k, inp)
    ensures Succeeds(k, SetRules(AllRules(inp))) && Do(k, SetRules(AllRules(inp))).rules == k.rules + RuleState(inp)
  {
    AllSlotsDistinct(inp);
    assert forall x :: x in AllRules(inp) && x.slot in k.rules ==> |k.rules[x.slot]| == 1;
    hide AllRules;
    hide WithinGaps;
    hide Do;
    hide Succeeds;
    SetRulesSucceed(k, AllRules(inp));
    SetRulesEffect(k, AllRules(inp));
  }

  lemma BetweenShape(inp: Inputs)
    ensures forall c :: c in (ChainCmds(inp) + StrictUp(inp.cfg, inp.nets)) + SetRules(AllRules(inp)) ==>
            !TouchesRoutes(c)
  {
    forall c | c in (ChainCmds(inp) + StrictUp(inp.cfg, inp.nets)) + SetRules(AllRules(inp))
      ensures !TouchesRoutes(c)
    {
      hide AllRules;
      hide StrictUp;
      hide GatewayAppends;
      hide ZeroTierUp;
      if c in ChainCmds(inp) + StrictUp(inp.cfg, inp.nets) {
        ChainCmdsOnly(inp, c);
      }
    }
  }

  lemma UpRoutes(k: Kernel, inp: Inputs, k1: Kernel, k2: Kernel, k3: Kernel, k4: Kernel, k5: Kernel)
    requires Valid(inp) && UpStates(k, inp, k1, k2, k3, k4, k5)
    ensures k5.routes == k.routes + RouteState(inp)
  {
    BetweenShape(inp);
    hide Valid;
    hide Do;
    hide RouteState;
    hide ChainCmds;
    hide StrictUp;
    hide AllRules;
    hide SharedRoutesUp;
    hide PolicyRouteCmds;
    DoAppend(k1, ChainCmds(inp), StrictUp(inp.cfg, inp.nets));
    DoAppend(k1, ChainCmds(inp) + StrictUp(inp.cfg, inp.nets), SetRules(AllRules(inp)));
    RouteStateEffect(k, inp, (ChainCmds(inp) + StrictUp(inp.cfg, inp.nets)) + SetRules(AllRules(inp)));
  }

  lemma UpChains(k: Kernel, inp: Inputs, k1: Kernel, k2: Kernel, k3: Kernel, k4: Kernel, k5: Kernel, f: Family)
    requires k.BuiltIns() && UpStates(k, inp, k1, k2, k3, k4, k5)
    ensures Succeeds(k1, ChainCmds(inp)) && Succeeds(k2, StrictUp(inp.cfg, inp.nets))
    ensures FamilyFilters(k5, inp, f)
  {
    PhaseShapes(inp);
    hide Do;
    hide Succeeds;
    hide AllRules;
    hide PolicyRouteCmds;
    hide SharedRoutesUp;
    hide ChainCmds;
    hide StrictUp;
    hide OfFamily;
    hide StrictEgress;
    hide GatewayAppends;
    hide Appended;
    RoutingFrame(k, SharedRoutesUp(inp), f);
    FillChains(k1, inp, f);
    StrictUpSucceeds(k2, inp.cfg, inp.nets);
    StrictUpEffect(k2, inp.cfg, inp.nets, f);
    StrictUpFrame(k2, inp, f);
    RoutingFrame(k3, SetRules(AllRules(inp)), f);
    RoutingFrame(k4, PolicyRouteCmds(Replace, inp), f);
    UpFilters(k1, k2, k3, k4, k5, inp, f);
  }

  /** A fault-free PostUp succeeds; it adds exactly the configuration's rules and routes and fills
      the chains. */
  lemma PostUpEffect(k: Kernel, inp: Inputs, f: Family)
    requires Valid(inp) && k.BuiltIns() && SlotsReady(k, inp)
    ensures var k' := Do(k, PostUp(inp));
            && Succeeds(k, PostUp(inp)) && k'.rules == k.rules + RuleState(inp)
               && k'.routes == k.routes + RouteState(inp)
            && Filters(k', inp, f)
  {
    var k1 := Do(k, SharedRoutesUp(inp));
    var k2 := Do(k1, ChainCmds(inp));
    var k3 := Do(k2, StrictUp(inp.cfg, inp.nets));
    var k4 := Do(k3, SetRules(AllRules(inp)));
    var k5 := Do(k4, PolicyRouteCmds(Replace, inp));
    PhaseShapes(inp);
    hide Do;
    hide Succeeds;
    hide AllRules;
    hide WithinGaps;
    hide UniqueTables;
    hide PolicyRouteCmds;
    hide SharedRoutesUp;
    hide ChainCmds;
    hide StrictUp;
    hide FamilyFilters;
    hide NatFilters;
    hide RouteState;
    hide RuleState;
    hide SlotsReady;
    PostUpNat(k, inp);
    UpRules(k, inp, k1, k2, k3, k4, k5);
    UpRoutes(k, inp, k1, k2, k3, k4, k5);
    UpChains(k, inp, k1, k2, k3, k4, k5, f);
    UnconditionalSucceeds(k, SharedRoutesUp(inp));
    UnconditionalSucceeds(k4, PolicyRouteCmds(Replace, inp));
    PostUpJoined(k, inp, k1, k2, k3, k4);
  }

  lemma UpFilters(k1: Kernel, k2: Kernel, k3: Kernel, k4: Kernel, k5: Kernel, inp: Inputs, f: Family)
    requires k3.BuiltIns() && k4.BuiltIns() && k5.BuiltIns() && Filled(k1, k2, inp, f)
    requires SameChain(k2, k3, GatewayChain(f))
    requires GatewayJump(f) in k2.chains[Forward(f)] ==> GatewayJump(f) in k3.chains[Forward(f)]
    requires StrictChain(f) in k3.chains && k3.chains[StrictChain(f)] == OfFamily(StrictEgress(inp.cfg, inp.nets), f)
    requires StrictJump(f) in k3.chains[Forward(f)]
    requires SameChain(k3, k4, StrictChain(f)) && SameChain(k3, k4, Forward(f)) && SameChain(k3, k4, GatewayChain(f))
    requires SameChain(k4, k5, StrictChain(f)) && SameChain(k4, k5, Forward(f)) && SameChain(k4, k5, GatewayChain(f))
    ensures FamilyFilters(k5, inp, f)
  {
  }

  lemma StrictSparesNat(cfg: Config, nets: seq<GatewayNet>)
    ensures forall c :: c in StrictUp(cfg, nets) ==> SparesNat(c)
  {
    hide StrictEgress;
  }

  lemma PostUpNat(k: Kernel, inp: Inputs)
    requires k.BuiltIns()
    ensures NatFilters(Do(k, PostUp(inp)), inp)
  {
    hide Do;
    hide NatFilters;
    hide PolicyRouteCmds;
    hide SharedRoutesUp;
    hide GatewayAppends;
    hide OtherRules;
    hide PeerRules;
    hide ZeroTierUp;
    hide StrictUp;
    PhaseShapes(inp);
    ZeroTierSparesNat(inp);
    StrictSparesNat(inp.cfg, inp.nets);
    var a, i, g, z := SharedRoutesUp(inp), GATEWAY_INIT, GatewayAppends(inp.cfg, inp.lan), ZeroTierUp(inp);
    var s, p := StrictUp(inp.cfg, inp.nets) + SetRules(OtherRules(inp) + PeerRules(inp.cfg)),
        PolicyRouteCmds(Replace, inp);
    assert PostUp(inp) == a + (i + (g + (z + (s + p))));
    NatInstalled(k, inp, a, z + (s + p), PostUp(inp));
  }

  // ---------------------------------------------------------------- PostDown

  /** Whatever jumps to the strict chain is the application's own jump in FORWARD. */
  ghost predicate RefOnly(k: Kernel, f: Family) {
    forall c, r :: c in k.chains && r in k.chains[c] && r.FwRule? && r.target == Jump(StrictChain(f)) ==>
      c == Forward(f) && r == StrictJump(f)
  }

  ghost predicate RefSafe(c: Cmd, f: Family) {
    (c.Append? || c.Prepend? || c.EnsureFirst? || c.EnsureLast?) && c.rule.FwRule?
        && c.rule.target == Jump(StrictChain(f)) ==>
      c.chain == Forward(f) && c.rule == StrictJump(f)
  }

  lemma {:induction false} RefOnlyKept(k: Kernel, cmds: seq<Cmd>, f: Family)
    requires RefOnly(k, f) && forall c :: c in cmds ==> RefSafe(c, f)
    ensures RefOnly(Do(k, cmds), f)
  {
    if cmds != [] {
      var init, last := cmds[..|cmds| - 1], cmds[|cmds| - 1];
      RefOnlyKept(k, init, f);
      assert last in cmds;
      RefOnlyStep(Do(k, init), last, f);
    }
  }

  lemma RefOnlyStep(k: Kernel, c: Cmd, f: Family)
    requires RefOnly(k, f) && RefSafe(c, f)
    ensures RefOnly(Apply(k, c).0, f)
  {
    var k' := Apply(k, c).0;
    forall ch, r | ch in k'.chains && r in k'.chains[ch] && r.FwRule? && r.target == Jump(StrictChain(f))
      ensures ch == Forward(f) && r == StrictJump(f)
    {
      if c.Remove? && c.chain == ch && ch in k.chains && r !in k.chains[ch] {
        RemoveFirstSubset(k.chains[ch], c.rule, r);
      }
    }
  }

  /** How the hook commands treat the shared chains. */
  ghost predicate UpShape(c: Cmd, inp: Inputs, f: Family) {
    Tends(c, Forward(f), OwnForward(f)) && Tends(c, Postrouting, OwnNat(inp)) && RefSafe(c, f)
  }

  ghost predicate DownShape(c: Cmd, inp: Inputs, f: Family) {
    && Tends(c, Forward(f), OwnForward(f)) && Tends(c, Postrouting, OwnNat(inp)) && RefSafe(c, f)
    && OnlyRemoves(c, Forward(f)) && OnlyRemoves(c, Postrouting)
  }

  lemma GatewayUpShape(inp: Inputs, f: Family)
    ensures forall c :: c in GatewayUp(inp.cfg, inp.lan) ==> UpShape(c, inp, f)
  {
    forall c | c in GatewayUp(inp.cfg, inp.lan)
      ensures UpShape(c, inp, f)
    {
      hide GatewayAppends;
      if c in GatewayAppends(inp.cfg, inp.lan) {
        GatewayAppendsShape(inp.cfg, inp.lan, c);
      } else {
        assert c in GATEWAY_INIT;
      }
    }
  }

  lemma StrictUpShape(inp: Inputs, f: Family)
    ensures forall c :: c in StrictUp(inp.cfg, inp.nets) ==> UpShape(c, inp, f)
  {
    StrictEgressShape(inp.cfg, inp.nets);
    hide StrictEgress;
    forall c | c in StrictUp(inp.cfg, inp.nets)
      ensures UpShape(c, inp, f)
    {
      if c in StrictAppends(StrictEgress(inp.cfg, inp.nets)) {
        var i :| 0 <= i < |StrictEgress(inp.cfg, inp.nets)| && c == StrictAppends(StrictEgress(inp.cfg, inp.nets))[i];
        assert StrictEgress(inp.cfg, inp.nets)[i] in StrictEgress(inp.cfg, inp.nets);
      }
    }
  }

  lemma ZeroTierShape(inp: Inputs, f: Family)
    ensures forall c :: c in ZeroTierUp(inp) ==> UpShape(c, inp, f)
    ensures forall c :: c in ZeroTierDown(inp) ==> DownShape(c, inp, f)
  {
    assert forall i :: 0 <= i < |BypassSpecs(inp)| ==> BypassSpecs(inp)[i] in OwnNat(inp);
    forall x | x in BypassSpecs(inp)
      ensures x.FwRule? && x.target == Accept
    {
    }
  }

  lemma PostUpShape(inp: Inputs, f: Family)
    ensures forall c :: c in PostUp(inp) ==> UpShape(c, inp, f)
  {
    GatewayUpShape(inp, f);
    StrictUpShape(inp, f);
    ZeroTierShape(inp, f);
    PhaseShapes(inp);
    hide GatewayUp;
    hide StrictUp;
    hide ZeroTierUp;
    hide SharedRoutesUp;
    hide PolicyRouteCmds;
    hide AllRules;
    hide OtherRules;
    hide PeerRules;
    hide OwnNat;
    forall c | c in PostUp(inp)
      ensures UpShape(c, inp, f)
    {
    }
  }

  lemma StrictDownShape(inp: Inputs, f: Family)
    ensures forall c :: c in StrictDown() ==> DownShape(c, inp, f)
  {
  }

  ghost predicate AllDown(cmds: seq<Cmd>, inp: Inputs, f: Family) {
    forall c :: c in cmds ==> DownShape(c, inp, f)
  }

  lemma AllDownAppend(a: seq<Cmd>, b: seq<Cmd>, inp: Inputs, f: Family)
    requires AllDown(a, inp, f) && AllDown(b, inp, f)
    ensures AllDown(a + b, inp, f)
  {
    hide DownShape;
  }

  lemma RoutingDown(inp: Inputs, f: Family)
    ensures AllDown(RoutesDown(inp), inp, f) && AllDown(DelRules(AllRules(inp)), inp, f)
  {
    RoutesDownShape(inp);
    hide RoutesDown;
    hide AllRules;
  }

  lemma PostDownShape(inp: Inputs, f: Family)
    ensures AllDown(PostDown(inp), inp, f)
  {
    ZeroTierShape(inp, f);
    StrictDownShape(inp, f);
    RoutingDown(inp, f);
    var a, b, c, d := ZeroTierDown(inp), DelRules(AllRules(inp)), RoutesDown(inp), StrictDown();
    assert AllDown(a, inp, f) && AllDown(d, inp, f);
    hide ZeroTierDown;
    hide StrictDown;
    hide RoutesDown;
    hide AllRules;
    hide AllDown;
    AllDownAppend(a, b, inp, f);
    AllDownAppend(a + b, c, inp, f);
    AllDownAppend((a + b) + c, d, inp, f);
    assert PostDown(inp) == ((a + b) + c) + d;
  }

  lemma PostDownRemoves(inp: Inputs, f: Family)
    ensures Remove(Forward(f), StrictJump(f)) in PostDown(inp)
    ensures ZeroTierNat(inp.cfg) ==> forall x :: x in OwnNat(inp) && x != NAT_JUMP ==>
            Remove(Postrouting, x) in PostDown(inp)
  {
    if ZeroTierNat(inp.cfg) {
      forall x | x in OwnNat(inp) && x != NAT_JUMP
        ensures Remove(Postrouting, x) in ZeroTierDown(inp)
      {
        if x != ZT_MASQUERADE {
          var i :| 0 <= i < |BypassSpecs(inp)| && BypassSpecs(inp)[i] == x;
          assert RemoveAll(BypassSpecs(inp))[i] in RemoveAll(BypassSpecs(inp));
        }
      }
    }
    assert f == V4 || f == V6;
    assert Remove(Forward(f), StrictJump(f)) in StrictDown();
    hide ZeroTierDown;
    hide StrictDown;
    hide RoutesDown;
    hide OtherRules;
    hide PeerRules;
    hide OwnNat;
  }

  lemma RouteStateSame(a: Inputs, b: Inputs)
    requires SameUpToOrder(a, b)
    ensures RouteState(a) == RouteState(b) && AllRules(a) == AllRules(b) && OwnNat(a) == OwnNat(b)
  {
    assert PolicyRouteCmds(Replace, a) == PolicyRouteCmds(Replace, b);
    forall x | x in BypassSpecs(a)
      ensures x in BypassSpecs(b)
    {
      var p :| p in a.bypass && x == BypassRule(p);
      var i :| 0 <= i < |b.bypass| && b.bypass[i] == p;
      assert BypassSpecs(b)[i] == x;
    }
    forall x | x in BypassSpecs(b)
      ensures x in BypassSpecs(a)
    {
      var p :| p in b.bypass && x == BypassRule(p);
      var i :| 0 <= i < |a.bypass| && a.bypass[i] == p;
      assert BypassSpecs(a)[i] == x;
    }
  }

  /** The states between the parts of PostDown. */
  lemma DownStates(k: Kernel, inp: Inputs)
    ensures Do(k, PostDown(inp)) ==
              Do(Do(Do(Do(k, ZeroTierDown(inp)), DelRules(AllRules(inp))), RoutesDown(inp)), StrictDown())
    ensures Succeeds(k, PostDown(inp))
  {
    RoutesDownShape(inp);
    var a, b, c, d := ZeroTierDown(inp), DelRules(AllRules(inp)), RoutesDown(inp), StrictDown();
    assert NeverFails(a) && NeverFails(b) && NeverFails(c) && NeverFails(d);
    hide Do;
    hide Succeeds;
    hide ZeroTierDown;
    hide RoutesDown;
    hide AllRules;
    hide StrictDown;
    DoAppend(k, a, b);
    DoAppend(k, a + b, c);
    DoAppend(k, (a + b) + c, d);
    hide NeverFails;
    NeverFailsAppend(a, b);
    NeverFailsAppend(a + b, c);
    NeverFailsAppend((a + b) + c, d);
    assert PostDown(inp) == ((a + b) + c) + d;
    Unfailing(k, PostDown(inp));
  }

  lemma DownPure(k: Kernel, inp: Inputs)
    ensures Do(k, ZeroTierDown(inp)).rules == k.rules && Do(k, ZeroTierDown(inp)).routes == k.routes
    ensures Do(k, StrictDown()).rules == k.rules && Do(k, StrictDown()).routes == k.routes
  {
    hide Do;
    hide ZeroTierDown;
    hide StrictDown;
    PureChains(inp, k, ZeroTierDown(inp));
    PureChains(inp, k, StrictDown());
  }

  lemma DelAll(k: Kernel, inp: Inputs, rules: map<Slot, seq<RuleBody>>)
    requires Valid(inp) && k.rules == rules + RuleState(inp) && rules.Keys !! Slots(AllRules(inp))
    ensures Do(k, DelRules(AllRules(inp))).rules == rules
  {
    AllSlotsDistinct(inp);
    RuleMapAt(AllRules(inp));
    OwnRulesPresent(inp, k.rules, rules);
    hide AllRules;
    hide Valid;
    hide RuleMap;
    DelRulesEffect(k, AllRules(inp));
    hide Do;
    CancelOne(rules, RuleState(inp), Slots(AllRules(inp)));
  }

  lemma CancelOne<K, V>(m: map<K, V>, n: map<K, V>, s: set<K>)
    requires n.Keys == s && m.Keys !! n.Keys
    ensures (m + n) - s == m
  {
  }

  lemma DownRules(k: Kernel, inp: Inputs, rules: map<Slot, seq<RuleBody>>, routes: map<RouteKey, Hop>)
    requires Valid(inp) && Holds(k, inp, rules, routes) && ForeignTo(rules, routes, inp)
    ensures Do(k, PostDown(inp)).rules == rules && Do(k, PostDown(inp)).routes == routes
  {
    hide Do;
    hide Valid;
    hide AllRules;
    hide RuleState;
    hide RouteState;
    hide RoutesDown;
    hide ManagedKeys;
    hide PostDown;
    DownStates(k, inp);
    var k1 := Do(k, ZeroTierDown(inp));
    var k2 := Do(k1, DelRules(AllRules(inp)));
    var k3 := Do(k2, RoutesDown(inp));
    DownPure(k, inp);
    DownPure(k3, inp);
    DelRulesFrame(k1, AllRules(inp));
    RoutesDownFrame(k2, inp);
    DelAll(k1, inp, rules);
    RoutesDownEffect(k2, inp, routes);
  }

  lemma OwnRulesPresent(inp: Inputs, m: map<Slot, seq<RuleBody>>, rules: map<Slot, seq<RuleBody>>)
    requires Valid(inp) && m == rules + RuleState(inp) && rules.Keys !! Slots(AllRules(inp))
    ensures forall x :: x in AllRules(inp) && x.slot in m ==> m[x.slot] == [x.body]
  {
    hide AllRules;
    RulesPresent(inp, m, AllRules(inp), rules);
  }

  lemma StrictDownTriple(k: Kernel, f: Family)
    requires k.BuiltIns() && RefOnly(k, f) && Count(k.chains[Forward(f)], StrictJump(f)) <= 1
    ensures var k' := Do(k, [Remove(Forward(f), StrictJump(f)), FlushChain(StrictChain(f), true),
            DropChain(StrictChain(f))]);
            StrictChain(f) !in k'.chains
  {
    var a, b, c := Remove(Forward(f), StrictJump(f)), FlushChain(StrictChain(f), true), DropChain(StrictChain(f));
    DoThree(k, a, b, c);
    hide Do;
    var rules := k.chains[Forward(f)];
    CountRemoveFirst(rules, StrictJump(f), StrictJump(f));
    CountIn(rules, StrictJump(f));
    CountIn(RemoveFirst(rules, StrictJump(f)), StrictJump(f));
    RefOnlyStep(k, a, f);
    var k1 := Apply(k, a).0;
    assert StrictJump(f) !in k1.chains[Forward(f)];
    RefOnlyStep(k1, b, f);
    var k2 := Apply(k1, b).0;
    assert StrictJump(f) !in k2.chains[Forward(f)];
    assert !Referenced(k2, StrictChain(f));
  }

  lemma StrictDownEffect(k: Kernel, f: Family)
    requires k.BuiltIns() && RefOnly(k, f) && Count(k.chains[Forward(f)], StrictJump(f)) <= 1
    ensures StrictChain(f) !in Do(k, StrictDown()).chains
  {
    hide Do;
    hide RefOnly;
    hide Count;
    var a := [Remove(Forward(V4), StrictJump(V4)), FlushChain(StrictChain(V4), true), DropChain(StrictChain(V4))];
    var b := [Remove(Forward(V6), StrictJump(V6)), FlushChain(StrictChain(V6), true), DropChain(StrictChain(V6))];
    assert StrictDown() == a + b;
    DoAppend(k, a, b);
    if f == V4 {
      StrictDownTriple(k, V4);
      KeepsChain(Do(k, a), b, StrictChain(V4));
    } else {
      KeepsChain(k, a, Forward(V6));
      KeepsBuiltIns(k, a);
      RefOnlyKept(k, a, V6);
      StrictDownTriple(Do(k, a), V6);
    }
  }

  /** A kernel that holds nothing of the application's at the managed places. */
  ghost predicate Untouched(k: Kernel, inp: Inputs, f: Family) {
    && k.BuiltIns() && ForeignTo(k.rules, k.routes, inp)
    && StrictChain(f) !in k.chains && RefOnly(k, f) && StrictJump(f) !in k.chains[Forward(f)]
    && forall x :: x in OwnNat(inp) && x != NAT_JUMP ==> x !in k.chains[Postrouting]
  }

  /** A shared chain once the hooks have run up and down. */
  lemma SharedChainRestored(k: Kernel, up: seq<Cmd>, down: seq<Cmd>, ch: ChainId, own: set<FwRule>, left: set<FwRule>)
    requires ch in k.chains && left <= own
    requires forall c :: c in up ==> Tends(c, ch, own)
    requires forall c :: c in down ==> Tends(c, ch, own) && OnlyRemoves(c, ch)
    requires forall x :: x in own - left ==> x !in k.chains[ch] && Remove(ch, x) in down
    ensures var k' := Do(Do(k, up), down);
            && ch in k'.chains && Strip(k'.chains[ch], left) == Strip(k.chains[ch], left)
            && forall x :: x in own - left ==> x !in k'.chains[ch]
  {
    var k1 := Do(k, up);
    TendedStrip(k, up, ch, own);
    TendedStrip(k1, down, ch, own);
    var k' := Do(k1, down);
    forall x | x in own - left
      ensures x !in k'.chains[ch]
    {
      CountIn(k.chains[ch], x);
      TendedOnce(k, up, ch, own, x);
      RemovedIsGone(k1, down, ch, x);
    }
    StripAbsent(k.chains[ch], left, own);
    StripAbsent(k'.chains[ch], left, own);
  }

  lemma ForwardRestored(k: Kernel, up: Inputs, down: Inputs, f: Family)
    requires Untouched(k, up, f)
    ensures var k' := Do(Do(k, PostUp(up)), PostDown(down));
            && Forward(f) in k'.chains && StrictJump(f) !in k'.chains[Forward(f)]
            && Strip(k'.chains[Forward(f)], {GatewayJump(f)}) == Strip(k.chains[Forward(f)], {GatewayJump(f)})
  {
    PostUpShape(up, f);
    PostDownShape(down, f);
    PostDownRemoves(down, f);
    hide PostUp;
    hide PostDown;
    hide Do;
    hide OwnNat;
    SharedChainRestored(k, PostUp(up), PostDown(down), Forward(f), OwnForward(f), {GatewayJump(f)});
  }

  /** With masquerading off the hooks leave POSTROUTING alone but for the jump. */
  lemma ZeroTierOff(inp: Inputs)
    requires !ZeroTierNat(inp.cfg)
    ensures forall c :: c in PostUp(inp) ==> Tends(c, Postrouting, {NAT_JUMP})
    ensures forall c :: c in PostDown(inp) ==> Tends(c, Postrouting, {NAT_JUMP}) && OnlyRemoves(c, Postrouting)
  {
    var off := inp.(bypass := []);
    PostUpShape(off, V4);
    PostDownShape(off, V4);
    StrictUpTouches(inp);
    PhaseShapes(inp);
    RoutesDownShape(inp);
    hide StrictUp;
    hide SharedRoutesUp;
    hide PolicyRouteCmds;
    hide OtherRules;
    hide PeerRules;
    hide RoutesDown;
    hide GatewayAppends;
    forall c | c in PostUp(inp)
      ensures Tends(c, Postrouting, {NAT_JUMP})
    {
      if c in GatewayAppends(inp.cfg, inp.lan) {
        GatewayAppendsShape(inp.cfg, inp.lan, c);
      }
    }
    forall c | c in PostDown(inp)
      ensures Tends(c, Postrouting, {NAT_JUMP}) && OnlyRemoves(c, Postrouting)
    {
    }
  }

  lemma NatRestored(k: Kernel, up: Inputs, down: Inputs)
    requires Untouched(k, up, V4) && SameUpToOrder(up, down)
    ensures var k' := Do(Do(k, PostUp(up)), PostDown(down));
            && Postrouting in k'.chains
               && Strip(k'.chains[Postrouting], {NAT_JUMP}) == Strip(k.chains[Postrouting], {NAT_JUMP})
            && (ZeroTierNat(up.cfg) ==> forall x :: x in OwnNat(up) && x != NAT_JUMP ==> x !in k'.chains[Postrouting])
  {
    RouteStateSame(up, down);
    if ZeroTierNat(up.cfg) {
      PostUpShape(up, V4);
      PostDownShape(down, V4);
      PostDownRemoves(down, V4);
      hide PostUp;
      hide PostDown;
      hide Do;
      assert NAT_JUMP in OwnNat(up);
      hide OwnNat;
      SharedChainRestored(k, PostUp(up), PostDown(down), Postrouting, OwnNat(up), {NAT_JUMP});
    } else {
      ZeroTierOff(up);
      ZeroTierOff(down);
      hide PostUp;
      hide PostDown;
      hide Do;
      SharedChainRestored(k, PostUp(up), PostDown(down), Postrouting, {NAT_JUMP}, {NAT_JUMP});
    }
  }

  lemma StrictChainRestored(k: Kernel, up: Inputs, down: Inputs, f: Family)
    requires Untouched(k, up, f)
    ensures StrictChain(f) !in Do(Do(k, PostUp(up)), PostDown(down)).chains
  {
    PostUpShape(up, f);
    PostDownShape(down, f);
    var k1 := Do(k, PostUp(up));
    CountIn(k.chains[Forward(f)], StrictJump(f));
    TendedOnce(k, PostUp(up), Forward(f), OwnForward(f), StrictJump(f));
    RefOnlyKept(k, PostUp(up), f);
    UpKeepsBuiltIns(k, up);
    StrictChainGone(k1, down, f);
  }

  lemma UpKeepsBuiltIns(k: Kernel, inp: Inputs)
    requires k.BuiltIns()
    ensures Do(k, PostUp(inp)).BuiltIns()
  {
    PhaseShapes(inp);
    hide SharedRoutesUp;
    hide PolicyRouteCmds;
    hide OtherRules;
    hide PeerRules;
    hide StrictEgress;
    hide GatewayAppends;
    forall c | c in PostUp(inp)
      ensures !c.DropChain?
    {
      if c in GatewayAppends(inp.cfg, inp.lan) {
        GatewayAppendsShape(inp.cfg, inp.lan, c);
      }
    }
    hide PostUp;
    KeepsBuiltIns(k, PostUp(inp));
  }

  /** Everything before the strict teardown leaves what it relies on. */
  lemma BeforeStrictDown(k: Kernel, cmds: seq<Cmd>, f: Family)
    requires k.BuiltIns() && RefOnly(k, f)
    requires forall c :: c in cmds ==> Quiet(c, f)
    ensures var k' := Do(k, cmds);
            k'.BuiltIns() && RefOnly(k', f) && k'.chains[Forward(f)] == k.chains[Forward(f)]
  {
    KeepsChain(k, cmds, Forward(f));
    KeepsBuiltIns(k, cmds);
    RefOnlyKept(k, cmds, f);
  }

  ghost predicate Quiet(c: Cmd, f: Family) {
    !TouchesChain(c, Forward(f)) && !c.DropChain? && RefSafe(c, f)
  }

  lemma QuietDown(inp: Inputs, f: Family)
    ensures forall c :: c in ZeroTierDown(inp) ==> Quiet(c, f)
    ensures forall c :: c in RoutesDown(inp) ==> Quiet(c, f)
    ensures forall c :: c in DelRules(AllRules(inp)) ==> Quiet(c, f)
  {
    RoutesDownShape(inp);
    hide RoutesDown;
    hide AllRules;
  }

  lemma StrictChainGone(k: Kernel, inp: Inputs, f: Family)
    requires k.BuiltIns() && RefOnly(k, f) && Count(k.chains[Forward(f)], StrictJump(f)) <= 1
    ensures StrictChain(f) !in Do(k, PostDown(inp)).chains
  {
    hide Do;
    hide AllRules;
    hide RoutesDown;
    hide ZeroTierDown;
    hide PostDown;
    hide RefOnly;
    hide Quiet;
    hide StrictDown;
    hide Succeeds;
    DownStates(k, inp);
    QuietDown(inp, f);
    var k1 := Do(k, ZeroTierDown(inp));
    var k2 := Do(k1, DelRules(AllRules(inp)));
    BeforeStrictDown(k, ZeroTierDown(inp), f);
    BeforeStrictDown(k1, DelRules(AllRules(inp)), f);
    BeforeStrictDown(k2, RoutesDown(inp), f);
    StrictDownEffect(Do(k2, RoutesDown(inp)), f);
  }

  /** Up and down again: from a kernel that holds nothing of the application's, running PostUp and
      then PostDown without faults succeeds and restores rules, private tables, the strict chains and
      the ZeroTier NAT rules, whatever order the maps are iterated in either time. Only the gateway
      chains, which PostDown does not take down, and the jumps to them are left. */
  lemma UpDownRestores(k: Kernel, up: Inputs, down: Inputs, f: Family)
    requires Valid(up) && Valid(down) && SameUpToOrder(up, down)
    requires Untouched(k, up, f) && Untouched(k, up, V4) && ForeignTo(k.rules, k.routes, down)
    ensures var k1 := Do(k, PostUp(up));
            var k2 := Do(k1, PostDown(down));
            && Succeeds(k, PostUp(up)) && Succeeds(k1, PostDown(down))
            && k2.rules == k.rules && k2.routes == k.routes
            && StrictChain(f) !in k2.chains
            && Forward(f) in k2.chains && Postrouting in k2.chains
            && StrictJump(f) !in k2.chains[Forward(f)]
            && Strip(k2.chains[Forward(f)], {GatewayJump(f)}) == Strip(k.chains[Forward(f)], {GatewayJump(f)})
            && Strip(k2.chains[Postrouting], {NAT_JUMP}) == Strip(k.chains[Postrouting], {NAT_JUMP})
  {
    assert SlotsReady(k, up) by {
      hide AllRules;
      assert forall x :: x in AllRules(up) ==> x.slot in Slots(AllRules(up));
    }
    hide Do;
    hide Succeeds;
    hide Valid;
    hide PostUp;
    hide PostDown;
    hide SlotsReady;
    var k1 := Do(k, PostUp(up));
    PostUpEffect(k, up, f);
    RouteStateSame(up, down);
    hide RouteState;
    hide AllRules;
    hide OwnNat;
    hide ManagedKeys;
    DownRules(k1, down, k.rules, k.routes);
    DownStates(k1, down);
    StrictChainRestored(k, up, down, f);
    ForwardRestored(k, up, down, f);
    NatRestored(k, up, down);
  }

  // ---------------------------------------------------------------- PostUp twice

  /** A chain in which every rule the list ensures already stands is left as it is. */
  lemma {:induction false} EnsuredAlready(k: Kernel, cmds: seq<Cmd>, ch: ChainId)
    requires ch in k.chains
    requires forall c :: c in cmds && TouchesChain(c, ch) ==>
             c.NewChain? || ((c.EnsureFirst? || c.EnsureLast?) && c.rule in k.chains[ch])
    ensures SameChain(k, Do(k, cmds), ch)
  {
    hide Apply;
    hide SameChain;
    if cmds == [] {
      SameChainAgain(k, ch);
    } else {
      var init, last := cmds[..|cmds| - 1], cmds[|cmds| - 1];
      EnsuredAlready(k, init, ch);
      assert last in cmds;
      AlreadyStep(k, Do(k, init), last, ch);
    }
  }

  lemma SameChainAgain(k: Kernel, ch: ChainId)
    ensures SameChain(k, k, ch)
  {
  }

  lemma AlreadyStep(k: Kernel, now: Kernel, c: Cmd, ch: ChainId)
    requires ch in k.chains && SameChain(k, now, ch)
    requires TouchesChain(c, ch) ==> c.NewChain? || ((c.EnsureFirst? || c.EnsureLast?) && c.rule in k.chains[ch])
    ensures SameChain(k, Apply(now, c).0, ch)
  {
  }

  lemma EnsureStep(k: Kernel, c: Cmd, ch: ChainId)
    requires ch in k.chains && (Apply(k, c).1 || Tolerant(c))
    requires TouchesChain(c, ch) ==> c.NewChain? || c.EnsureFirst? || c.EnsureLast?
    ensures ch in Apply(k, c).0.chains
    ensures forall r :: r in k.chains[ch] ==> r in Apply(k, c).0.chains[ch]
    ensures TouchesChain(c, ch) && !c.NewChain? ==> c.rule in Apply(k, c).0.chains[ch]
  {
  }

  /** After a run that does not fail, every ensured rule stands. */
  lemma {:induction false} EnsuredStands(k: Kernel, cmds: seq<Cmd>, ch: ChainId, x: Cmd)
    requires ch in k.chains && Succeeds(k, cmds)
    requires forall c :: c in cmds && TouchesChain(c, ch) ==> c.NewChain? || c.EnsureFirst? || c.EnsureLast?
    ensures ch in Do(k, cmds).chains
    ensures x in cmds && TouchesChain(x, ch) && !x.NewChain? ==>
            (x.EnsureFirst? || x.EnsureLast?) && x.rule in Do(k, cmds).chains[ch]
  {
    if cmds != [] {
      var init, last := cmds[..|cmds| - 1], cmds[|cmds| - 1];
      assert cmds == init + [last];
      EnsuredStands(k, init, ch, x);
      assert last in cmds;
      EnsureStep(Do(k, init), last, ch);
      hide Apply;
    }
  }

  /** What PostUp does to the shared chains, it does by ensuring. */
  ghost predicate EnsuresShared(c: Cmd, f: Family) {
    (TouchesChain(c, Forward(f)) ==> c.EnsureFirst? && (c.rule == GatewayJump(f) || c.rule == StrictJump(f)))
    && (TouchesChain(c, Postrouting) ==> c.EnsureFirst? || c.EnsureLast?)
  }

  lemma PostUpEnsures(inp: Inputs, f: Family)
    ensures forall c :: c in PostUp(inp) ==> EnsuresShared(c, f)
  {
    PhaseShapes(inp);
    hide SharedRoutesUp;
    hide PolicyRouteCmds;
    hide OtherRules;
    hide PeerRules;
    hide StrictEgress;
    hide GatewayAppends;
    hide ZeroTierUp;
    hide EnsuresShared;
    forall c | c in PostUp(inp)
      ensures EnsuresShared(c, f)
    {
      PostUpMember(inp, c);
      OneEnsures(inp, c, f);
    }
  }

  lemma PostUpMember(inp: Inputs, c: Cmd)
    requires c in PostUp(inp)
    ensures c in SharedRoutesUp(inp) || c in PolicyRouteCmds(Replace, inp) || c in GATEWAY_INIT
            || c in GatewayAppends(inp.cfg, inp.lan) || c in ZeroTierUp(inp) || c in StrictUp(inp.cfg, inp.nets)
               || c.SetRule?
  {
    hide SharedRoutesUp;
    hide PolicyRouteCmds;
    hide OtherRules;
    hide PeerRules;
    hide GatewayAppends;
    hide ZeroTierUp;
    hide StrictUp;
  }

  lemma OneEnsures(inp: Inputs, c: Cmd, f: Family)
    requires c.ReplaceRoute? || c in GATEWAY_INIT
             || c in GatewayAppends(inp.cfg, inp.lan) || c in ZeroTierUp(inp) || c in StrictUp(inp.cfg, inp.nets)
                || c.SetRule?
    ensures EnsuresShared(c, f)
  {
    hide GatewayAppends;
    hide StrictUp;
    hide ZeroTierUp;
    if c in GatewayAppends(inp.cfg, inp.lan) {
      GatewayAppendsShape(inp.cfg, inp.lan, c);
    } else if c in ZeroTierUp(inp) {
      ZeroTierEnsures(inp, c, f);
    } else if c in StrictUp(inp.cfg, inp.nets) {
      StrictEnsures(inp, c, f);
    }
  }

  lemma ZeroTierEnsures(inp: Inputs, c: Cmd, f: Family)
    requires c in ZeroTierUp(inp)
    ensures EnsuresShared(c, f)
  {
  }

  lemma StrictEnsures(inp: Inputs, c: Cmd, f: Family)
    requires c in StrictUp(inp.cfg, inp.nets)
    ensures EnsuresShared(c, f)
  {
    hide StrictUp;
    StrictUpTouches(inp);
  }

  /** The NAT commands do not depend on the order of the bypass list. */
  lemma SameNatCmds(a: Inputs, b: Inputs, c: Cmd)
    requires SameUpToOrder(a, b) && c in PostUp(b) && TouchesChain(c, Postrouting)
    ensures c in PostUp(a)
  {
    PhaseShapes(b);
    StrictUpTouches(b);
    hide SharedRoutesUp;
    hide PolicyRouteCmds;
    hide OtherRules;
    hide PeerRules;
    hide StrictUp;
    hide GatewayUp;
    if c in ZeroTierUp(b) {
      SameZeroTier(a, b, c);
      hide ZeroTierUp;
      assert c in PostUp(a);
    } else {
      assert c in GatewayUp(b.cfg, b.lan);
    }
  }

  lemma SameZeroTier(a: Inputs, b: Inputs, c: Cmd)
    requires SameUpToOrder(a, b) && c in ZeroTierUp(b)
    ensures c in ZeroTierUp(a)
  {
    if c in EnsureAllFirst(BypassSpecs(b)) {
      var i :| 0 <= i < |BypassSpecs(b)| && c == EnsureFirst(Postrouting, BypassSpecs(b)[i]);
      var p :| p in b.bypass && BypassSpecs(b)[i] == BypassRule(p);
      var j :| 0 <= j < |a.bypass| && a.bypass[j] == p;
      assert EnsureAllFirst(BypassSpecs(a))[j] == c;
    }
  }

  lemma OwnEntries(inp: Inputs, x: IpRule)
    requires WithinGaps(inp) && x in AllRules(inp)
    ensures x.slot in RuleState(inp) && RuleState(inp)[x.slot] == [x.body]
  {
    AllSlotsDistinct(inp);
    hide AllRules;
    hide WithinGaps;
    RuleMapAt(AllRules(inp));
    hide RuleMap;
    var i :| 0 <= i < |AllRules(inp)| && AllRules(inp)[i] == x;
  }

  lemma AddTwice<K, V>(m: map<K, V>, n: map<K, V>)
    ensures (m + n) + n == m + n
  {
  }

  lemma SlotsReadyAgain(k: Kernel, k1: Kernel, a: Inputs)
    requires WithinGaps(a) && k1.rules == k.rules + RuleState(a)
    ensures SlotsReady(k1, a) && k1.rules + RuleState(a) == k1.rules
  {
    hide AllRules;
    hide WithinGaps;
    hide RuleState;
    forall x | x in AllRules(a)
      ensures x.slot in k1.rules && k1.rules[x.slot] == [x.body]
    {
      OwnEntries(a, x);
    }
    AddTwice(k.rules, RuleState(a));
  }

  lemma SharedChainsSettled(k: Kernel, a: Inputs, b: Inputs, f: Family)
    requires SameUpToOrder(a, b) && k.BuiltIns() && Succeeds(k, PostUp(a)) && Filters(Do(k, PostUp(a)), a, f)
    ensures var k1 := Do(k, PostUp(a));
            SameChain(k1, Do(k1, PostUp(b)), Forward(f)) && SameChain(k1, Do(k1, PostUp(b)), Postrouting)
  {
    PostUpEnsures(a, f);
    PostUpEnsures(b, f);
    hide PostUp;
    hide Do;
    hide Succeeds;
    var k1 := Do(k, PostUp(a));
    forall c | c in PostUp(b) && TouchesChain(c, Postrouting)
      ensures (c.EnsureFirst? || c.EnsureLast?) && c.rule in k1.chains[Postrouting]
    {
      SameNatCmds(a, b, c);
      EnsuredStands(k, PostUp(a), Postrouting, c);
    }
    EnsuredAlready(k1, PostUp(b), Postrouting);
    EnsuredAlready(k1, PostUp(b), Forward(f));
  }

  /** Bringing the interface up twice is bringing it up once: the second PostUp succeeds and changes
      no rule, route or filter chain, and no shared chain, whatever order the maps are iterated in. */
  lemma PostUpTwice(k: Kernel, a: Inputs, b: Inputs, f: Family)
    requires Valid(a) && Valid(b) && SameUpToOrder(a, b) && k.BuiltIns() && SlotsReady(k, a)
    ensures var k1 := Do(k, PostUp(a));
            var k2 := Do(k1, PostUp(b));
            && Succeeds(k, PostUp(a)) && Succeeds(k1, PostUp(b))
            && SameManaged(k1, k2, f)
            && SameChain(k1, k2, Forward(f)) && SameChain(k1, k2, Postrouting)
  {
    hide PostUp;
    hide Do;
    hide Succeeds;
    PostUpEffect(k, a, f);
    var k1 := Do(k, PostUp(a));
    FiltersBuiltIns(k1, a, f);
    SlotsReadyAgain(k, k1, a);
    RouteStateSame(a, b);
    SharedChainsSettled(k, a, b, f);
    hide RouteState;
    hide RuleMap;
    hide AllRules;
    hide WithinGaps;
    hide UniqueTables;
    hide Appended;
    hide OfFamily;
    hide StrictEgress;
    hide GatewayAppends;
    PostUpEffect(k1, b, f);
    assert RuleState(a) == RuleState(b);
    assert k.routes + RouteState(a) + RouteState(a) == k.routes + RouteState(a);
  }
}
