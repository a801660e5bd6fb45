/** What the report of success is worth: whatever failures the tolerant commands swallowed, a
    Reconcile that succeeds has every rule of the new configuration in place, and its strict peers are
    confined. */
module SuccessfulRuns {
  import opened Lists
  import opened Network
  import opened Models
  import opened Kernel
  import opened Runs
  import opened IpRules
  import opened StrictChains
  import opened GatewayChains
  import opened Routes
  import opened Generators
  import opened Effects
  import opened FailClosed
  import opened Guards
  import opened Convergence
  import opened Confinement
  import opened Agreement

  // ---------------------------------------------------------------- the block stays private

  /** Everything the commands set is a rule of the configuration. */
  ghost predicate SetsOnly(cmds: seq<Cmd>, xs: seq<IpRule>) {
    forall c :: c in cmds && c.SetRule? ==> IpRule(c.slot, c.body) in xs
  }

  lemma SetsOnlyAppend(a: seq<Cmd>, b: seq<Cmd>, xs: seq<IpRule>)
    requires SetsOnly(a, xs) && SetsOnly(b, xs)
    ensures SetsOnly(a + b, xs)
  {
  }

  lemma SetRulesOnly(xs: seq<IpRule>)
    ensures SetsOnly(SetRules(xs), xs)
  {
    forall c | c in SetRules(xs)
      ensures IpRule(c.slot, c.body) in xs
    {
      var i :| 0 <= i < |xs| && SetRules(xs)[i] == c;
      assert xs[i] in xs;
    }
  }

  /** The commands of a list that touch no rule at all. */
  ghost predicate NoSets(cmds: seq<Cmd>) {
    forall c :: c in cmds ==> !c.SetRule?
  }

  ghost predicate RulesUntouched(cmds: seq<Cmd>) {
    forall c :: c in cmds ==> !TouchesRules(c)
  }

  lemma NoSetsAppend(a: seq<Cmd>, b: seq<Cmd>)
    requires NoSets(a) && NoSets(b)
    ensures NoSets(a + b)
  {
  }

  lemma GuardsTouchNoRule(sources: seq<Prefix>, add: bool)
    ensures RulesUntouched(GuardCmds(sources, add))
  {
  }

  lemma TeardownSetsNothing(prev: Inputs)
    ensures NoSets(Teardown(prev))
  {
    hide RoutesDown;
    hide ZeroTierDown;
    hide PeerRules;
    hide OtherRules;
    RoutesDownShape(prev);
    forall c | c in ZeroTierDown(prev)
      ensures !c.SetRule?
    {
      ChainCmdsOnly(prev, c);
    }
    var a, b, d, e := ZeroTierDown(prev), DelRules(PeerRules(prev.cfg)), DelRules(OtherRules(prev)), RoutesDown(prev);
    assert NoSets(GATEWAY_DOWN);
    NoSetsAppend(a, b);
    NoSetsAppend(GATEWAY_DOWN, d);
    NoSetsAppend(a + b, GATEWAY_DOWN + d);
    NoSetsAppend((a + b) + (GATEWAY_DOWN + d), e);
  }

  /** What precedes the rules of the new configuration in a run. */
  ghost function Before(prev: Inputs, next: Inputs): seq<Cmd> {
    (GuardCmds(Affected(prev.cfg, next.cfg), true) + (Teardown(prev) + StrictUp(next.cfg, next.nets)))
    + (SharedRoutesUp(next) + (GATEWAY_INIT + (GatewayAppends(next.cfg, next.lan) + ZeroTierUp(next))))
  }

  /** What follows them. */
  ghost function After(prev: Inputs, next: Inputs): seq<Cmd> {
    PolicyRouteCmds(Replace, next) + GuardCmds(Affected(prev.cfg, next.cfg), false)
  }

  lemma Grouped(g: seq<Cmd>, t: seq<Cmd>, s: seq<Cmd>, a: seq<Cmd>, i: seq<Cmd>, c: seq<Cmd>, r: seq<Cmd>,
                p: seq<Cmd>, d: seq<Cmd>)
    ensures g + (((t + s) + (a + (i + (c + (r + p))))) + d) == ((g + (t + s)) + (a + (i + c))) + (r + (p + d))
  {
  }

  lemma RunParts(prev: Inputs, next: Inputs)
    ensures ReconcileCmds(prev, next) == Before(prev, next) + (SetRules(AllRules(next)) + After(prev, next))
  {
    hide Affected;
    hide Teardown;
    hide StrictUp;
    hide SharedRoutesUp;
    hide GatewayAppends;
    hide ZeroTierUp;
    hide PolicyRouteCmds;
    hide OtherRules;
    hide PeerRules;
    var sources := Affected(prev.cfg, next.cfg);
    Grouped(GuardCmds(sources, true), Teardown(prev), StrictUp(next.cfg, next.nets), SharedRoutesUp(next), GATEWAY_INIT,
            GatewayAppends(next.cfg, next.lan) + ZeroTierUp(next), SetRules(AllRules(next)),
                PolicyRouteCmds(Replace, next),
            GuardCmds(sources, false));
  }

  lemma BeforeSetsNothing(prev: Inputs, next: Inputs)
    ensures NoSets(Before(prev, next))
  {
    var sources := Affected(prev.cfg, next.cfg);
    hide Affected;
    hide Teardown;
    hide StrictUp;
    hide SharedRoutesUp;
    hide GatewayAppends;
    hide ZeroTierUp;
    GuardsTouchNoRule(sources, true);
    TeardownSetsNothing(prev);
    SharedUpShape(next);
    forall c | c in StrictUp(next.cfg, next.nets)
        || c in GATEWAY_INIT + (GatewayAppends(next.cfg, next.lan) + ZeroTierUp(next))
      ensures !c.SetRule?
    {
      ChainCmdsOnly(next, c);
    }
    NoSetsAppend(Teardown(prev), StrictUp(next.cfg, next.nets));
    var g, m := GuardCmds(sources, true), Teardown(prev) + StrictUp(next.cfg, next.nets);
    NoSetsAppend(g, m);
    var a, c := SharedRoutesUp(next), GATEWAY_INIT + (GatewayAppends(next.cfg, next.lan) + ZeroTierUp(next));
    NoSetsAppend(a, c);
    NoSetsAppend(g + m, a + c);
  }

  lemma AfterTouchesNoRule(prev: Inputs, next: Inputs)
    ensures RulesUntouched(After(prev, next))
  {
    hide Affected;
    hide PolicyRouteCmds;
    PolicyUpShape(next);
    GuardsTouchNoRule(Affected(prev.cfg, next.cfg), false);
  }

  lemma ReconcileSets(prev: Inputs, next: Inputs)
    ensures SetsOnly(ReconcileCmds(prev, next), AllRules(next))
  {
    hide ReconcileCmds;
    hide Before;
    hide After;
    hide AllRules;
    RunParts(prev, next);
    BeforeSetsNothing(prev, next);
    AfterTouchesNoRule(prev, next);
    SetRulesOnly(AllRules(next));
    SetsOnlyAppend(SetRules(AllRules(next)), After(prev, next), AllRules(next));
    SetsOnlyAppend(Before(prev, next), SetRules(AllRules(next)) + After(prev, next), AllRules(next));
  }

  /** A rule that may be set without spoiling the peer block. */
  ghost predicate BlockSafe(s: Slot, b: RuleBody) {
    s.priority >= PEER_BASE && (s.priority < DEVICE_BASE ==> PrivateBody(b))
  }

  lemma NextIsBlockSafe(next: Inputs, x: IpRule)
    requires NoReservedTables(next.cfg) && x in AllRules(next)
    ensures BlockSafe(x.slot, x.body)
  {
    hide PeerRuleBodies;
    if x in PeerRules(next.cfg) {
      var i :| 0 <= i < |PeerRules(next.cfg)| && PeerRules(next.cfg)[i] == x;
      PeerRuleShape(next.cfg, PeerRuleBodies(next.cfg)[i]);
    } else {
      BlockPriorities(next);
    }
  }

  /** Rules come only from the commands, one at a time; everything else is what was there. */
  lemma RuleOrigin(k: Kernel, c: Cmd, o: Outcome, s: Slot, b: RuleBody)
    ensures var m := Step(k, c, o).0.rules;
            b in At(m, s) ==> b in At(k.rules, s) || (c.SetRule? && c.slot == s && c.body == b)
    ensures var m := Step(k, c, o).0.rules;
            s in m ==> s in k.rules || (c.SetRule? && c.slot == s)
  {
    if c.DelRule? {
      RemoveFirstSubset(At(k.rules, c.slot), c.body, b);
    }
  }

  lemma {:induction false} RemoveFirstSubset<T>(s: seq<T>, y: T, x: T)
    ensures x in RemoveFirst(s, y) ==> x in s
  {
    if s != [] && s[0] != y {
      RemoveFirstSubset(s[1..], y, x);
    }
  }

  lemma BlockStep(k: Kernel, c: Cmd, o: Outcome)
    requires BlockPrivate(k) && (c.SetRule? ==> BlockSafe(c.slot, c.body))
    ensures BlockPrivate(Step(k, c, o).0)
  {
    hide Step;
    hide PrivateBody;
    var k' := Step(k, c, o).0;
    forall f, n | 1 <= n < PEER_BASE
      ensures Slot(f, n) !in k'.rules
    {
      RuleOrigin(k, c, o, Slot(f, n), RuleBody(Prefix(V4, 0, 0), None, Prohibit));
    }
    forall s, b | s in k'.rules && PEER_BASE <= s.priority < DEVICE_BASE && b in k'.rules[s]
      ensures PrivateBody(b)
    {
      RuleOrigin(k, c, o, s, b);
    }
  }

  /** In every state of every run, whatever fails, the peer block leads to private tables and rejects
      only, whichever configurations its rules stem from. */
  lemma BlockStaysPrivate(k: Kernel, prev: Inputs, next: Inputs, env: nat -> Outcome, t: nat)
    requires BlockPrivate(k) && NoReservedTables(next.cfg)
    ensures forall s :: s in Run(k, ReconcileCmds(prev, next), env, t).trace ==> BlockPrivate(s)
  {
    hide ReconcileCmds;
    hide RunFrom;
    hide BlockPrivate;
    hide AllRules;
    hide BlockSafe;
    hide Step;
    ReconcileSets(prev, next);
    ghost var inv := (s: Kernel) => BlockPrivate(s);
    forall s, c, o | inv(s) && c in ReconcileCmds(prev, next)
      ensures inv(Step(s, c, o).0)
    {
      if c.SetRule? {
        NextIsBlockSafe(next, IpRule(c.slot, c.body));
      }
      BlockStep(s, c, o);
    }
    RunKeeps(inv, k, ReconcileCmds(prev, next), env, t);
  }

  // ---------------------------------------------------------------- success installs the rules

  lemma RuleKept(k: Kernel, c: Cmd, o: Outcome, x: IpRule)
    requires x.body in At(k.rules, x.slot) && !c.DelRule? && (c.SetRule? ==> c.slot != x.slot)
    ensures x.body in At(Step(k, c, o).0.rules, x.slot)
  {
  }

  /** Setting a rule elsewhere, or anything that touches no rule, keeps a rule. */
  lemma RuleStays(k: Kernel, cmds: seq<Cmd>, env: nat -> Outcome, t: nat, x: IpRule)
    requires x.body in At(k.rules, x.slot)
    requires forall c :: c in cmds ==> !c.DelRule? && (c.SetRule? ==> c.slot != x.slot)
    ensures x.body in At(Run(k, cmds, env, t).Final().rules, x.slot)
  {
    hide Step;
    hide At;
    hide RunFrom;
    ghost var inv := (s: Kernel) => x.body in At(s.rules, x.slot);
    forall s, c, o | inv(s) && c in cmds
      ensures inv(Step(s, c, o).0)
    {
      RuleKept(s, c, o, x);
    }
    RunKeeps(inv, k, cmds, env, t);
    var r := Run(k, cmds, env, t);
    assert r.Final() in r.trace;
    assert inv(r.Final());
  }

  lemma SetLands(k: Kernel, x: IpRule, o: Outcome)
    requires Step(k, SetRule(x.slot, x.body), o).1
    ensures x.body in At(Step(k, SetRule(x.slot, x.body), o).0.rules, x.slot)
  {
  }

  lemma {:induction false} SetsInstall(k: Kernel, xs: seq<IpRule>, env: nat -> Outcome, t: nat)
    requires DistinctSlots(xs) && Run(k, SetRules(xs), env, t).ok
    ensures Installed(Run(k, SetRules(xs), env, t).Final(), xs)
    decreases |xs|
  {
    hide RunFrom;
    hide Step;
    hide At;
    if xs != [] {
      var x, rest := xs[0], xs[1..];
      assert SetRules(xs)[1..] == SetRules(rest);
      RunFromUnfold(StepUnder(env), k, SetRules(xs), t);
      var k' := Step(k, SetRule(x.slot, x.body), env(t)).0;
      assert StepUnder(env)(k, SetRules(xs)[0], t) == Step(k, SetRule(x.slot, x.body), env(t));
      SetLands(k, x, env(t));
      RuleStays(k', SetRules(rest), env, t + 1, x);
      SetsInstall(k', rest, env, t + 1);
      assert xs == [x] + rest;
    }
  }

  /** A Reconcile that reports success has every rule of the new configuration in place: no command
      that sets a rule may fail silently. */
  lemma SuccessInstalls(k: Kernel, prev: Inputs, next: Inputs, env: nat -> Outcome, t: nat)
    requires WithinGaps(next) && Run(k, ReconcileCmds(prev, next), env, t).ok
    ensures Installed(Run(k, ReconcileCmds(prev, next), env, t).Final(), AllRules(next))
  {
    hide RunFrom;
    hide ReconcileCmds;
    hide Before;
    hide After;
    hide AllRules;
    hide WithinGaps;
    hide Installed;
    hide DistinctSlots;
    AllSlotsDistinct(next);
    RunParts(prev, next);
    var before, sets, after := Before(prev, next), SetRules(AllRules(next)), After(prev, next);
    var r := Run(k, ReconcileCmds(prev, next), env, t);
    var ra, rest := TwoPhases(StepUnder(env), k, before, sets + after, t, r);
    var rb, rc := TwoPhases(StepUnder(env), ra.Final(), sets, after, t + |before|, rest);
    SetsInstall(ra.Final(), AllRules(next), env, t + |before|);
    AfterKeeps(rb.Final(), prev, next, env, t + |before| + |sets|);
  }

  lemma AfterKeeps(k: Kernel, prev: Inputs, next: Inputs, env: nat -> Outcome, t: nat)
    requires Installed(k, AllRules(next))
    ensures Installed(Run(k, After(prev, next), env, t).Final(), AllRules(next))
  {
    AfterTouchesNoRule(prev, next);
    hide After;
    hide AllRules;
    hide RunFrom;
    var k' := Run(k, After(prev, next), env, t).Final();
    forall x | x in AllRules(next)
      ensures x.body in At(k'.rules, x.slot)
    {
      RuleStays(k, After(prev, next), env, t, x);
    }
  }

  /** Strict confinement after any successful Reconcile, whatever deletions and policy routes failed
      silently on the way: a packet of an enabled strict peer is decided inside the peer block, at a
      private table hit or a reject, and the block is as private as before for the next run. */
  lemma SuccessConfines(k: Kernel, prev: Inputs, next: Inputs, env: nat -> Outcome, t: nat, peer: Peer, p: Packet)
    requires BlockPrivate(k) && NoReservedTables(next.cfg) && WithinGaps(next)
    requires Run(k, ReconcileCmds(prev, next), env, t).ok
    requires peer in next.cfg.peers && peer.enabled && peer.strict && FromPeer(peer, p)
    ensures var k' := Run(k, ReconcileCmds(prev, next), env, t).Final();
            BlockPrivate(k') && EndsInBlock(Decide(k', p, 1))
  {
    hide RunFrom;
    hide ReconcileCmds;
    hide BlockPrivate;
    hide Decide;
    hide PeerRules;
    hide OtherRules;
    var r := Run(k, ReconcileCmds(prev, next), env, t);
    BlockStaysPrivate(k, prev, next, env, t);
    assert r.Final() in r.trace;
    SuccessInstalls(k, prev, next, env, t);
    StrictConfinement(r.Final(), next.cfg, peer, p);
  }

  // ---------------------------------------------------------------- success installs the strict chains

  /** What the commands after the flush of a strict chain do to it and to FORWARD. */
  ghost predicate FillsStrict(c: Cmd, f: Family) {
    && (TouchesChain(c, StrictChain(f)) ==> c.Append?)
    && (TouchesChain(c, Forward(f)) ==> !c.FlushChain? && !c.DropChain? && (c.Remove? ==> c.rule != StrictJump(f)))
  }

  ghost predicate FillStrict(cmds: seq<Cmd>, f: Family) {
    forall c :: c in cmds ==> FillsStrict(c, f)
  }

  lemma FillStrictAppend(a: seq<Cmd>, b: seq<Cmd>, f: Family)
    requires FillStrict(a, f) && FillStrict(b, f)
    ensures FillStrict(a + b, f)
  {
    hide FillsStrict;
  }

  /** The strict chain of the family holds these rules, and FORWARD jumps to it. */
  ghost predicate StrictHolds(k: Kernel, f: Family, rules: seq<FwRule>) {
    && StrictChain(f) in k.chains && k.chains[StrictChain(f)] == rules
    && Forward(f) in k.chains && StrictJump(f) in k.chains[Forward(f)]
  }

  lemma StrictStep(k: Kernel, c: Cmd, o: Outcome, f: Family, rules: seq<FwRule>)
    requires StrictHolds(k, f, rules) && FillsStrict(c, f) && Step(k, c, o).1
    ensures StrictHolds(Step(k, c, o).0, f, rules + if c.Append? && c.chain == StrictChain(f) then [c.rule] else [])
  {
    assert rules + [] == rules;
    if c.Remove? && c.chain == Forward(f) {
      Others(k.chains[c.chain], c.rule, StrictJump(f));
    }
  }

  lemma {:induction false} Others(s: seq<FwRule>, y: FwRule, x: FwRule)
    requires x in s && x != y
    ensures x in RemoveFirst(s, y)
  {
    if s[0] != y && s[0] != x {
      Others(s[1..], y, x);
    }
  }

  /** The commands that follow fill the strict chain in order, when all of them succeed. */
  lemma {:induction false} StrictFilled(k: Kernel, cmds: seq<Cmd>, env: nat -> Outcome, t: nat, f: Family,
                                        rules: seq<FwRule>)
    requires StrictHolds(k, f, rules) && FillStrict(cmds, f) && Run(k, cmds, env, t).ok
    ensures StrictHolds(Run(k, cmds, env, t).Final(), f, rules + Appended(cmds, StrictChain(f)))
    decreases |cmds|
  {
    hide RunFrom;
    hide StrictHolds;
    hide FillsStrict;
    hide Step;
    if cmds == [] {
      RunEmpty(StepUnder(env), k, t);
      assert rules + [] == rules;
    } else {
      var init, c := cmds[..|cmds| - 1], cmds[|cmds| - 1];
      assert cmds == init + [c];
      var ra, rb := TwoPhases(StepUnder(env), k, init, [c], t, Run(k, cmds, env, t));
      StrictFilled(k, init, env, t, f, rules);
      var i := t + |init|;
      RunFromUnfold(StepUnder(env), ra.Final(), [c], i);
      RunEmpty(StepUnder(env), Step(ra.Final(), c, env(i)).0, i + 1);
      assert StepUnder(env)(ra.Final(), c, i) == Step(ra.Final(), c, env(i));
      assert c in cmds;
      StrictStep(ra.Final(), c, env(i), f, rules + Appended(init, StrictChain(f)));
      assert (rules + Appended(init, StrictChain(f))) + (if c.Append? && c.chain == StrictChain(f) then [c.rule]
          else [])
          == rules + Appended(cmds, StrictChain(f));
    }
  }

  /** Creating, hooking and flushing a strict chain leaves it empty and reachable, if it succeeds. */
  lemma InitHolds(k: Kernel, env: nat -> Outcome, t: nat, f: Family)
    requires k.BuiltIns() && Run(k, StrictInit(f), env, t).ok
    ensures StrictHolds(Run(k, StrictInit(f), env, t).Final(), f, [])
  {
    var c, step := StrictInit(f), StepUnder(env);
    RunFromUnfold(step, k, c, t);
    var k1 := Step(k, c[0], env(t)).0;
    RunFromUnfold(step, k1, c[1..], t + 1);
    var k2 := Step(k1, c[1], env(t + 1)).0;
    RunFromUnfold(step, k2, c[2..], t + 2);
    var k3 := Step(k2, c[2], env(t + 2)).0;
    RunEmpty(step, k3, t + 3);
    assert c[1..][1..] == c[2..] && c[2..][1..] == [];
    hide RunFrom;
    assert StepUnder(env)(k, c[0], t) == Step(k, c[0], env(t));
    assert StepUnder(env)(k1, c[1], t + 1) == Step(k1, c[1], env(t + 1));
    assert StepUnder(env)(k2, c[2], t + 2) == Step(k2, c[2], env(t + 2));
    InitSteps(k, k1, k2, k3, env(t), env(t + 1), env(t + 2), f);
  }

  lemma InitSteps(k: Kernel, k1: Kernel, k2: Kernel, k3: Kernel, o1: Outcome, o2: Outcome, o3: Outcome, f: Family)
    requires k.BuiltIns()
    requires var c := StrictInit(f);
             Step(k, c[0], o1) == (k1, true) && Step(k1, c[1], o2) == (k2, true) && Step(k2, c[2], o3) == (k3, true)
    ensures StrictHolds(k3, f, [])
  {
    assert Forward(f) in k1.chains;
    assert StrictJump(f) in k2.chains[Forward(f)];
  }

  ghost function StrictHead(prev: Inputs, next: Inputs, f: Family): seq<Cmd> {
    (GuardCmds(Affected(prev.cfg, next.cfg), true) + Teardown(prev)) + if f == V4 then [] else StrictInit(V4)
  }

  ghost function StrictTail(prev: Inputs, next: Inputs, f: Family): seq<Cmd> {
    (if f == V4 then StrictInit(V6) else [])
    + (StrictAppends(StrictEgress(next.cfg, next.nets))
        + (Setup(next) + GuardCmds(Affected(prev.cfg, next.cfg), false)))
  }

  lemma StrictParts(prev: Inputs, next: Inputs, f: Family)
    ensures ReconcileCmds(prev, next) == StrictHead(prev, next, f) + (StrictInit(f) + StrictTail(prev, next, f))
  {
    var sources := Affected(prev.cfg, next.cfg);
    hide Affected;
    hide Teardown;
    hide StrictEgress;
    hide Setup;
    hide StrictInit;
    StrictGrouping(GuardCmds(sources, true), Teardown(prev), StrictInit(V4), StrictInit(V6),
        StrictAppends(StrictEgress(next.cfg, next.nets)),
                   Setup(next), GuardCmds(sources, false));
    assert f == V4 || f == V6;
  }

  lemma StrictGrouping(g: seq<Cmd>, t: seq<Cmd>, a: seq<Cmd>, b: seq<Cmd>, s: seq<Cmd>, u: seq<Cmd>, d: seq<Cmd>)
    ensures g + (((t + ((a + b) + s)) + u) + d) == ((g + t) + []) + (a + (b + (s + (u + d))))
    ensures g + (((t + ((a + b) + s)) + u) + d) == ((g + t) + a) + (b + ([] + (s + (u + d))))
  {
  }

  lemma {:induction false} AppendedJoin(a: seq<Cmd>, b: seq<Cmd>, ch: ChainId)
    ensures Appended(a + b, ch) == Appended(a, ch) + Appended(b, ch)
  {
    if b == [] {
      assert a + b == a;
    } else {
      AppendedJoin(a, b[..|b| - 1], ch);
      assert (a + b)[..|a + b| - 1] == a + b[..|b| - 1];
    }
  }

  lemma {:induction false} AppendsNothing(cmds: seq<Cmd>, ch: ChainId)
    requires forall c :: c in cmds && c.Append? ==> c.chain != ch
    ensures Appended(cmds, ch) == []
  {
    if cmds != [] {
      AppendsNothing(cmds[..|cmds| - 1], ch);
      assert cmds[|cmds| - 1] in cmds;
    }
  }

  lemma SetupFills(next: Inputs, f: Family)
    ensures FillStrict(Setup(next), f) && forall c :: c in Setup(next) && c.Append? ==> c.chain != StrictChain(f)
  {
    hide Setup;
    hide FillsStrict;
    hide SharedRoutesUp;
    hide PolicyRouteCmds;
    hide GatewayAppends;
    hide ZeroTierUp;
    forall c | c in Setup(next)
      ensures FillsStrict(c, f) && (c.Append? ==> c.chain != StrictChain(f))
    {
      SetupMember(next, c);
      SharedUpShape(next);
      PolicyUpShape(next);
      ChainFills(next, c, f);
    }
  }

  lemma ChainFills(next: Inputs, c: Cmd, f: Family)
    requires c in GATEWAY_INIT || c in GatewayAppends(next.cfg, next.lan) || c in ZeroTierUp(next) || TouchesRules(c)
             || TouchesRoutes(c)
    ensures FillsStrict(c, f) && (c.Append? ==> c.chain != StrictChain(f))
  {
    hide GatewayAppends;
    if c in GatewayAppends(next.cfg, next.lan) {
      GatewayAppendsShape(next.cfg, next.lan, c);
    }
  }

  lemma SetupMember(next: Inputs, c: Cmd)
    requires c in Setup(next)
    ensures c in SharedRoutesUp(next) || c in PolicyRouteCmds(Replace, next) || c in GATEWAY_INIT
            || c in GatewayAppends(next.cfg, next.lan) || c in ZeroTierUp(next) || c.SetRule?
  {
    hide SharedRoutesUp;
    hide PolicyRouteCmds;
    hide OtherRules;
    hide PeerRules;
    hide GatewayAppends;
    hide ZeroTierUp;
  }

  lemma TailFills(prev: Inputs, next: Inputs, f: Family)
    ensures FillStrict(StrictTail(prev, next, f), f)
    ensures Appended(StrictTail(prev, next, f), StrictChain(f)) == OfFamily(StrictEgress(next.cfg, next.nets), f)
  {
    hide Affected;
    hide Setup;
    hide StrictEgress;
    hide Appended;
    hide OfFamily;
    var rules, ch := StrictEgress(next.cfg, next.nets), StrictChain(f);
    var init, guards := if f == V4 then StrictInit(V6) else [], GuardCmds(Affected(prev.cfg, next.cfg), false);
    SetupFills(next, f);
    StrictAppended(rules, f);
    AppendsNothing(Setup(next), ch);
    AppendsNothing(guards, ch);
    AppendsNothing(init, ch);
    AppendedJoin(Setup(next), guards, ch);
    AppendedJoin(StrictAppends(rules), Setup(next) + guards, ch);
    AppendedJoin(init, StrictAppends(rules) + (Setup(next) + guards), ch);
    FillStrictAppend(Setup(next), guards, f);
    FillStrictAppend(StrictAppends(rules), Setup(next) + guards, f);
    FillStrictAppend(init, StrictAppends(rules) + (Setup(next) + guards), f);
  }

  /** A Reconcile that reports success leaves in each strict chain exactly the rules of the new
      configuration, with the jump to it in place, whatever the tolerant commands did. */
  lemma SuccessFillsStrict(k: Kernel, prev: Inputs, next: Inputs, env: nat -> Outcome, t: nat, f: Family)
    requires Sane(k) && Run(k, ReconcileCmds(prev, next), env, t).ok
    ensures StrictHolds(Run(k, ReconcileCmds(prev, next), env, t).Final(), f,
            OfFamily(StrictEgress(next.cfg, next.nets), f))
  {
    hide RunFrom;
    hide ReconcileCmds;
    hide StrictHead;
    hide StrictTail;
    hide StrictInit;
    hide OfFamily;
    hide Appended;
    hide StrictHolds;
    hide FillsStrict;
    StrictParts(prev, next, f);
    TailFills(prev, next, f);
    var head, init, tail := StrictHead(prev, next, f), StrictInit(f), StrictTail(prev, next, f);
    var r := Run(k, ReconcileCmds(prev, next), env, t);
    var ra, rest := TwoPhases(StepUnder(env), k, head, init + tail, t, r);
    var rb, rc := TwoPhases(StepUnder(env), ra.Final(), init, tail, t + |head|, rest);
    HeadKeepsBuiltIns(k, prev, next, f, env, t);
    InitHolds(ra.Final(), env, t + |head|, f);
    StrictFilled(rb.Final(), tail, env, t + |head| + |init|, f, []);
    var rules := OfFamily(StrictEgress(next.cfg, next.nets), f);
    assert [] + rules == rules;
  }

  lemma HeadKeepsBuiltIns(k: Kernel, prev: Inputs, next: Inputs, f: Family, env: nat -> Outcome, t: nat)
    requires Sane(k)
    ensures Run(k, StrictHead(prev, next, f), env, t).Final().BuiltIns()
  {
    hide ReconcileCmds;
    hide Neutral;
    hide StrictSane;
    hide RunFrom;
    hide StrictHead;
    hide Kernel.BuiltIns;
    hide Step;
    CommandsNeutral(prev, next, V4);
    CommandsNeutral(prev, next, V6);
    StrictParts(prev, next, f);
    var inv := SaneFn();
    var head := StrictHead(prev, next, f);
    forall s, c, o | inv(s) && c in head
      ensures inv(Step(s, c, o).0)
    {
      assert c in ReconcileCmds(prev, next);
      SaneStep(s, c, o, V4, next);
      SaneStep(s, c, o, V6, next);
    }
    RunKeeps(inv, k, head, env, t);
    var last := Run(k, head, env, t).Final();
    assert last in Run(k, head, env, t).trace;
    assert inv(last);
  }

  /** The same packet at the filter: if its source is the peer's alone, the strict chain as
      any successful Reconcile leaves it hands the packet back exactly if a route of the peer covers it
      on the device it is leaving by, and rejects it otherwise. */
  lemma SuccessFilters(k: Kernel, prev: Inputs, next: Inputs, env: nat -> Outcome, t: nat, peer: Peer, p: Packet)
    requires Sane(k) && Run(k, ReconcileCmds(prev, next), env, t).ok
    requires peer in next.cfg.peers && peer.enabled && peer.strict
    requires FromAddress(peer, p.src) && OwnAddress(next.cfg, peer, p.src) && p.dst.family == p.src.family
    ensures var k' := Run(k, ReconcileCmds(prev, next), env, t).Final();
            && Forward(p.src.family) in k'.chains && StrictJump(p.src.family) in k'.chains[Forward(p.src.family)]
            && StrictJump(p.src.family) ==
               FwRule(Some("wg0"), None, None, None, false, false, Jump(StrictChain(p.src.family)))
            && StrictChain(p.src.family) in k'.chains
            && UserVerdict(k'.chains[StrictChain(p.src.family)], p) ==
               if AllowedEgress(next.cfg, next.nets, peer, p) then Continue else Rejected
  {
    hide RunFrom;
    hide ReconcileCmds;
    hide OfFamily;
    hide FirstMatch;
    hide AllowedEgress;
    SuccessFillsStrict(k, prev, next, env, t, p.src.family);
    StrictChainIsExact(next.cfg, next.nets, peer, p);
  }
}
