/** What belongs to the administrator in FORWARD and POSTROUTING: no run of Reconcile, failed ones
    included, adds, removes or reorders any of it. */
module ForeignRules {
  import opened Lists
  import opened Network
  import opened Models
  import opened Kernel
  import opened Runs
  import opened IpRules
  import opened StrictChains
  import opened GatewayChains
  import opened Routes
  import opened Generators
  import opened Effects
  import opened FailClosed
  import opened Guards
  import opened Convergence
  import opened FaultFreeRuns
  import opened Hooks

  /** The rules a Reconcile may put into FORWARD or take out of it. */
  ghost function ForwardRules(prev: Inputs, next: Inputs, f: Family): set<FwRule> {
    OwnForward(f) + set s | s in Affected(prev.cfg, next.cfg) :: Guard(s)
  }

  ghost function NatRules(prev: Inputs, next: Inputs): set<FwRule> {
    OwnNat(prev) + OwnNat(next)
  }

  /** The command adds and removes only rules of this set in this chain. */
  ghost predicate Confines(c: Cmd, ch: ChainId, own: set<FwRule>) {
    TouchesChain(c, ch) ==>
      c.NewChain? || ((c.EnsureFirst? || c.EnsureLast? || c.Prepend? || c.Append? || c.Remove?) && c.rule in own)
  }

  lemma StripApply(k: Kernel, c: Cmd, ch: ChainId, own: set<FwRule>)
    requires ch in k.chains && Confines(c, ch, own)
    ensures var k' := Apply(k, c).0; ch in k'.chains && Strip(k'.chains[ch], own) == Strip(k.chains[ch], own)
  {
    var rules := k.chains[ch];
    if TouchesChain(c, ch) && !c.NewChain? {
      StripSnoc(rules, c.rule, own);
      StripRemoveFirst(rules, c.rule, own);
      assert ([c.rule] + rules)[1..] == rules;
    }
  }

  lemma StripStep(k: Kernel, c: Cmd, o: Outcome, ch: ChainId, own: set<FwRule>)
    requires ch in k.chains && Confines(c, ch, own)
    ensures var k' := Step(k, c, o).0; ch in k'.chains && Strip(k'.chains[ch], own) == Strip(k.chains[ch], own)
  {
    hide Apply;
    hide Step;
    hide Strip;
    ChainOutcomes(k, c, o);
    StripApply(k, c, ch, own);
    if c.EnsureFirst? || c.EnsureLast? {
      StripApply(k, Prepend(c.chain, c.rule), ch, own);
      StripApply(k, Append(c.chain, c.rule), ch, own);
    }
  }

  ghost function StripFn(ch: ChainId, own: set<FwRule>, rest: seq<FwRule>): Kernel -> bool {
    (k: Kernel) => ch in k.chains && Strip(k.chains[ch], own) == rest
  }

  lemma StripRun(k: Kernel, cmds: seq<Cmd>, env: nat -> Outcome, t: nat, ch: ChainId, own: set<FwRule>)
    requires ch in k.chains && forall c :: c in cmds ==> Confines(c, ch, own)
    ensures forall s :: s in Run(k, cmds, env, t).trace ==>
            ch in s.chains && Strip(s.chains[ch], own) == Strip(k.chains[ch], own)
  {
    hide Confines;
    hide Strip;
    hide Step;
    var inv := StripFn(ch, own, Strip(k.chains[ch], own));
    forall s, c, o | inv(s) && c in cmds
      ensures inv(Step(s, c, o).0)
    {
      StripStep(s, c, o, ch, own);
    }
    RunKeeps(inv, k, cmds, env, t);
    forall s | s in Run(k, cmds, env, t).trace
      ensures ch in s.chains && Strip(s.chains[ch], own) == Strip(k.chains[ch], own)
    {
      assert inv(s);
    }
  }

  /** Every command of a Reconcile confines itself to the application's own rules. */
  ghost predicate ConfinedTo(cmds: seq<Cmd>, prev: Inputs, next: Inputs, f: Family) {
    forall c :: c in cmds ==>
        Confines(c, Forward(f), ForwardRules(prev, next, f)) && Confines(c, Postrouting, NatRules(prev, next))
  }

  lemma ConfinedAppend(a: seq<Cmd>, b: seq<Cmd>, prev: Inputs, next: Inputs, f: Family)
    requires ConfinedTo(a, prev, next, f) && ConfinedTo(b, prev, next, f)
    ensures ConfinedTo(a + b, prev, next, f)
  {
    hide Confines;
  }

  lemma ShapeConfines(cmds: seq<Cmd>, inp: Inputs, prev: Inputs, next: Inputs, f: Family)
    requires forall c :: c in cmds ==> UpShape(c, inp, f)
    requires inp == prev || inp == next
    ensures ConfinedTo(cmds, prev, next, f)
  {
    hide OwnNat;
    hide Affected;
  }

  lemma RoutingConfines(cmds: seq<Cmd>, prev: Inputs, next: Inputs, f: Family)
    requires forall c :: c in cmds ==> TouchesRules(c) || TouchesRoutes(c)
    ensures ConfinedTo(cmds, prev, next, f)
  {
  }

  lemma GuardsConfine(prev: Inputs, next: Inputs, add: bool, f: Family)
    ensures ConfinedTo(GuardCmds(Affected(prev.cfg, next.cfg), add), prev, next, f)
  {
    var sources := Affected(prev.cfg, next.cfg);
    hide Affected;
    hide OwnNat;
    forall c | c in GuardCmds(sources, add)
      ensures Confines(c, Forward(f), ForwardRules(prev, next, f)) && Confines(c, Postrouting, NatRules(prev, next))
    {
      var i :| 0 <= i < |sources| && c == GuardCmds(sources, add)[i];
      assert sources[i] in sources;
    }
  }

  lemma TeardownConfines(prev: Inputs, next: Inputs, f: Family)
    ensures ConfinedTo(Teardown(prev), prev, next, f)
  {
    ZeroTierShape(prev, f);
    RoutesDownShape(prev);
    hide OtherRules;
    hide PeerRules;
    hide OwnNat;
    var a, b, c, d, e := ZeroTierDown(prev), DelRules(PeerRules(prev.cfg)), GATEWAY_DOWN, DelRules(OtherRules(prev)),
        RoutesDown(prev);
    ShapeConfines(a, prev, prev, next, f);
    RoutingConfines(b, prev, next, f);
    GatewayDownConfines(prev, next, f);
    RoutingConfines(d, prev, next, f);
    RoutingConfines(e, prev, next, f);
    hide ConfinedTo;
    hide RoutesDown;
    hide ZeroTierDown;
    ConfinedAppend(a, b, prev, next, f);
    ConfinedAppend(c, d, prev, next, f);
    ConfinedAppend(a + b, c + d, prev, next, f);
    ConfinedAppend((a + b) + (c + d), e, prev, next, f);
  }

  lemma GatewayDownConfines(prev: Inputs, next: Inputs, f: Family)
    ensures ConfinedTo(GATEWAY_DOWN, prev, next, f)
  {
    hide Affected;
  }

  lemma SetupConfines(prev: Inputs, next: Inputs, f: Family)
    ensures ConfinedTo(Setup(next), prev, next, f)
  {
    hide ConfinedTo;
    hide SharedRoutesUp;
    hide PolicyRouteCmds;
    hide GatewayAppends;
    hide ZeroTierUp;
    hide OtherRules;
    hide PeerRules;
    var a, g, z := SharedRoutesUp(next), GatewayUp(next.cfg, next.lan), ZeroTierUp(next);
    var s, p := SetRules(OtherRules(next) + PeerRules(next.cfg)), PolicyRouteCmds(Replace, next);
    PhaseShapes(next);
    RoutingConfines(a, prev, next, f);
    RoutingConfines(s, prev, next, f);
    RoutingConfines(p, prev, next, f);
    ChainsConfine(prev, next, f);
    ConfinedAppend(s, p, prev, next, f);
    ConfinedAppend(g + z, s + p, prev, next, f);
    ConfinedAppend(a, (g + z) + (s + p), prev, next, f);
    assert Setup(next) == a + ((g + z) + (s + p));
  }

  lemma ChainsConfine(prev: Inputs, next: Inputs, f: Family)
    ensures ConfinedTo(GatewayUp(next.cfg, next.lan) + ZeroTierUp(next), prev, next, f)
  {
    hide ConfinedTo;
    hide UpShape;
    hide DownShape;
    hide GatewayUp;
    hide ZeroTierUp;
    hide ZeroTierDown;
    ZeroTierShape(next, f);
    GatewayUpShape(next, f);
    ShapeConfines(GatewayUp(next.cfg, next.lan), next, prev, next, f);
    ShapeConfines(ZeroTierUp(next), next, prev, next, f);
    ConfinedAppend(GatewayUp(next.cfg, next.lan), ZeroTierUp(next), prev, next, f);
  }

  lemma ReconcileConfines(prev: Inputs, next: Inputs, f: Family)
    ensures ConfinedTo(ReconcileCmds(prev, next), prev, next, f)
  {
    StrictUpShape(next, f);
    ShapeConfines(StrictUp(next.cfg, next.nets), next, prev, next, f);
    hide ConfinedTo;
    hide Teardown;
    hide StrictUp;
    hide Setup;
    hide Affected;
    GuardsConfine(prev, next, true, f);
    GuardsConfine(prev, next, false, f);
    TeardownConfines(prev, next, f);
    SetupConfines(prev, next, f);
    var a, t, s, u, d := GuardCmds(Affected(prev.cfg, next.cfg), true), Teardown(prev), StrictUp(next.cfg, next.nets),
                         Setup(next), GuardCmds(Affected(prev.cfg, next.cfg), false);
    ConfinedAppend(t, s, prev, next, f);
    ConfinedAppend(t + s, u, prev, next, f);
    ConfinedAppend((t + s) + u, d, prev, next, f);
    ConfinedAppend(a, ((t + s) + u) + d, prev, next, f);
  }

  /** In every state of every run, whatever fails, FORWARD and POSTROUTING without the application's
      own rules are what they were, in the same order. */
  lemma ForeignRulesStay(k: Kernel, prev: Inputs, next: Inputs, env: nat -> Outcome, t: nat, f: Family)
    requires k.BuiltIns()
    ensures forall s :: s in Run(k, ReconcileCmds(prev, next), env, t).trace ==>
              && s.BuiltIns()
              && Strip(s.chains[Forward(f)], ForwardRules(prev, next, f)) ==
                 Strip(k.chains[Forward(f)], ForwardRules(prev, next, f))
              && Strip(s.chains[Postrouting], NatRules(prev, next)) ==
                 Strip(k.chains[Postrouting], NatRules(prev, next))
  {
    hide ReconcileCmds;
    hide ForwardRules;
    hide NatRules;
    hide RunFrom;
    hide Strip;
    hide Confines;
    ReconcileConfines(prev, next, V4);
    ReconcileConfines(prev, next, V6);
    var cmds := ReconcileCmds(prev, next);
    StripRun(k, cmds, env, t, Forward(V4), ForwardRules(prev, next, V4));
    StripRun(k, cmds, env, t, Forward(V6), ForwardRules(prev, next, V6));
    StripRun(k, cmds, env, t, Postrouting, NatRules(prev, next));
    assert f == V4 || f == V6;
    forall s | s in Run(k, cmds, env, t).trace
      ensures s.BuiltIns()
    {
      forall g: Family
        ensures Forward(g) in s.chains
      {
        assert g == V4 || g == V6;
      }
    }
  }
}
