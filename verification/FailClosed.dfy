/** Reconcile is fail-closed: between the end of step 1 and the start of step 5, whatever command
    fails, every packet of an affected strict source is rejected in FORWARD unless it matches an
    accept rule that the next configuration itself puts into the gateway chain. */
module FailClosed {
  import opened Lists
  import opened Network
  import opened Models
  import opened Kernel
  import opened Runs
  import opened IpRules
  import opened StrictChains
  import opened GatewayChains
  import opened Routes
  import opened Generators

  /** The rules the next configuration appends to the gateway chain of a family. */
  ghost predicate EmitsAccept(next: Inputs, f: Family, r: FwRule) {
    Append(GatewayChain(f), r) in GatewayUp(next.cfg, next.lan)
  }

  ghost predicate MatchesNoAccept(next: Inputs, p: Packet) {
    forall r :: EmitsAccept(next, p.src.family, r) && r.FwRule? ==> !Matches(r, p)
  }

  /** The strict chains hold nothing that could accept a packet. */
  ghost predicate StrictSane(k: Kernel, f: Family) {
    StrictChain(f) in k.chains ==>
      forall r :: r in k.chains[StrictChain(f)] ==> r.FwRule? && (r.target == Return || r.target == Reject)
  }

  /** What may stand above the guard of a source: other guards, the jump to the strict chain and,
      once `gw` says so, the jump to the gateway chain. */
  ghost predicate Benign(r: FwRule, f: Family, gw: bool) {
    (exists s :: r == Guard(s)) || r == StrictJump(f) || (gw && r == GatewayJump(f))
  }

  ghost predicate Shielded(rules: seq<FwRule>, s: Prefix, gw: bool) {
    rules != [] && (rules[0] == Guard(s) || (Benign(rules[0], s.family, gw) && Shielded(rules[1..], s, gw)))
  }

  lemma {:induction false} ShieldedMonotone(rules: seq<FwRule>, s: Prefix)
    requires Shielded(rules, s, false)
    ensures Shielded(rules, s, true)
  {
    if rules[0] != Guard(s) {
      ShieldedMonotone(rules[1..], s);
    }
  }

  lemma ShieldedPrepend(rules: seq<FwRule>, r: FwRule, s: Prefix, gw: bool)
    requires Shielded(rules, s, gw) && Benign(r, s.family, gw)
    ensures Shielded([r] + rules, s, gw)
  {
    assert ([r] + rules)[1..] == rules;
  }

  lemma {:induction false} ShieldedRemove(rules: seq<FwRule>, r: FwRule, s: Prefix, gw: bool)
    requires Shielded(rules, s, gw) && forall x :: r != Guard(x)
    ensures Shielded(RemoveFirst(rules, r), s, gw)
  {
    if rules[0] != Guard(s) && rules[0] != r {
      ShieldedRemove(rules[1..], r, s, gw);
      ShieldedPrepend(RemoveFirst(rules[1..], r), rules[0], s, gw);
    }
  }

  /** The invariant of steps 2 to 4 for one address family. */
  ghost predicate Held(k: Kernel, f: Family, gw: bool, sources: seq<Prefix>, next: Inputs) {
    && k.BuiltIns()
    && StrictSane(k, f)
    && (gw && GatewayChain(f) in k.chains ==>
          forall r :: r in k.chains[GatewayChain(f)] ==> EmitsAccept(next, f, r))
    && forall s :: s in sources && s.family == f ==> Shielded(k.chains[Forward(f)], s, gw)
  }

  /** Commands that keep it. */
  ghost predicate Safe(c: Cmd, f: Family, gw: bool, next: Inputs) {
    match c
    case EnsureFirst(ch, r) =>
      && ch != StrictChain(f) && ch != GatewayChain(f)
      && (ch == Forward(f) ==> r == StrictJump(f) || (gw && r == GatewayJump(f)))
    case EnsureLast(ch, _) => ch == Postrouting
    case Append(ch, r) =>
      && !ch.Forward?
      && (ch == StrictChain(f) ==> r.FwRule? && (r.target == Return || r.target == Reject))
      && (ch == GatewayChain(f) ==> EmitsAccept(next, f, r))
    case Prepend(_, _) => false
    case Remove(ch, r) => ch.Forward? ==> forall s :: r != Guard(s)
    case FlushChain(ch, _) => !ch.Forward? && ch != Postrouting
    case DropChain(ch) => !ch.Forward? && ch != Postrouting
    case _ => true
  }

  lemma RemoveFirstSubset(s: seq<FwRule>, r: FwRule, x: FwRule)
    requires x in RemoveFirst(s, r)
    ensures x in s
  {
    CountIn(RemoveFirst(s, r), x);
    CountRemoveFirst(s, r, x);
    CountIn(s, x);
  }

  lemma SafeKeepsShield(k: Kernel, c: Cmd, f: Family, gw: bool, sources: seq<Prefix>, next: Inputs)
    requires Held(k, f, gw, sources, next) && Safe(c, f, gw, next)
    ensures var k' := Apply(k, c).0;
            k'.BuiltIns() && forall s :: s in sources && s.family == f ==> Shielded(k'.chains[Forward(f)], s, gw)
  {
    var rules := k.chains[Forward(f)];
    forall s | s in sources && s.family == f
      ensures Shielded(Apply(k, c).0.chains[Forward(f)], s, gw)
    {
      if c.Remove? && c.chain == Forward(f) {
        ShieldedRemove(rules, c.rule, s, gw);
      } else if c.EnsureFirst? && c.chain == Forward(f) {
        ShieldedPrepend(rules, c.rule, s, gw);
      }
    }
  }

  lemma SafeApply(k: Kernel, c: Cmd, f: Family, gw: bool, sources: seq<Prefix>, next: Inputs)
    requires Held(k, f, gw, sources, next) && Safe(c, f, gw, next)
    ensures Held(Apply(k, c).0, f, gw, sources, next)
  {
    hide Shielded;
    SafeKeepsShield(k, c, f, gw, sources, next);
    if c.Remove? && c.chain in k.chains {
      forall x | x in RemoveFirst(k.chains[c.chain], c.rule)
        ensures x in k.chains[c.chain]
      {
        RemoveFirstSubset(k.chains[c.chain], c.rule, x);
      }
    }
  }

  /** An insert whose check was skipped repeats a rule that may stand above the guards anyway. */
  lemma SafeSecondPart(k: Kernel, c: Cmd, f: Family, gw: bool, sources: seq<Prefix>, next: Inputs)
    requires Held(k, f, gw, sources, next) && Safe(c, f, gw, next)
    ensures Held(SecondPart(k, c).0, f, gw, sources, next)
  {
    if c.EnsureFirst? {
      var rules := k.chains[Forward(f)];
      forall s | s in sources && s.family == f
        ensures Shielded(SecondPart(k, c).0.chains[Forward(f)], s, gw)
      {
        if c.chain == Forward(f) {
          ShieldedPrepend(rules, c.rule, s, gw);
        }
      }
    } else if !c.EnsureLast? && !c.SetRule? {
      SafeApply(k, c, f, gw, sources, next);
    }
  }

  lemma SafeStep(k: Kernel, c: Cmd, o: Outcome, f: Family, gw: bool, sources: seq<Prefix>, next: Inputs)
    requires Held(k, f, gw, sources, next) && Safe(c, f, gw, next)
    ensures Held(Step(k, c, o).0, f, gw, sources, next)
  {
    hide Apply;
    hide SecondPart;
    hide Shielded;
    SafeApply(k, c, f, gw, sources, next);
    SafeSecondPart(k, c, f, gw, sources, next);
  }

  ghost function HeldFn(f: Family, gw: bool, sources: seq<Prefix>, next: Inputs): Kernel -> bool {
    k => Held(k, f, gw, sources, next)
  }

  lemma SafeRun(k: Kernel, cmds: seq<Cmd>, env: nat -> Outcome, t: nat,
                f: Family, gw: bool, sources: seq<Prefix>, next: Inputs)
    requires Held(k, f, gw, sources, next)
    requires AllSafe(cmds, f, gw, next)
    ensures forall s :: s in Run(k, cmds, env, t).trace ==> Held(s, f, gw, sources, next)
  {
    var inv := HeldFn(f, gw, sources, next);
    forall s, c, o | inv(s) && c in cmds
      ensures inv(Step(s, c, o).0)
    {
      SafeStep(s, c, o, f, gw, sources, next);
    }
    RunKeeps(inv, k, cmds, env, t);
    forall s | s in Run(k, cmds, env, t).trace
      ensures Held(s, f, gw, sources, next)
    {
      assert inv(s);
    }
  }

  // ---------------------------------------------------------------- the commands of steps 2 to 4

  ghost predicate RoutingOnly(c: Cmd) {
    c.SetRule? || c.DelRule? || c.ReplaceRoute? || c.DelRoute?
  }

  lemma ExitRouteShape(verb: RouteVerb, order: seq<Peer>, c: Cmd)
    requires c in ExitRouteCmds(verb, order)
    ensures RoutingOnly(c)
  {
    hide FlatMap;
    hide Distinct;
    InFlatMap(ExitCmds(verb), FirstPerTable(order), c);
    var p :| p in FirstPerTable(order) && c in ExitCmds(verb)(p);
    InFlatMap(ExitCmd(verb, p.tableId), ExitPrefixes(p), c);
  }

  lemma GatewayRouteShape(verb: RouteVerb, cfg: Config, c: Cmd)
    requires c in GatewayRouteCmds(verb, cfg)
    ensures RoutingOnly(c)
  {
    hide FlatMap;
    hide Distinct;
    InFlatMap(GatewayRoutesOf(verb), cfg.gateways, c);
  }

  lemma PolicyRouteShape(verb: RouteVerb, inp: Inputs, c: Cmd)
    requires c in PolicyRouteCmds(verb, inp)
    ensures RoutingOnly(c)
  {
    hide FlatMap;
    hide Distinct;
    InFlatMap(PolicyPeerCmds(verb, inp.nets), inp.cfg.peers, c);
    var p :| p in inp.cfg.peers && c in PolicyPeerCmds(verb, inp.nets)(p);
    InFlatMap(PolicyCmd(verb, p, inp.nets), p.policyRoutes, c);
  }

  ghost predicate AllSafe(cmds: seq<Cmd>, f: Family, gw: bool, next: Inputs) {
    forall c :: c in cmds ==> Safe(c, f, gw, next)
  }

  lemma RoutesSafe(cmds: seq<Cmd>, f: Family, gw: bool, next: Inputs)
    requires forall c :: c in cmds ==> RoutingOnly(c)
    ensures AllSafe(cmds, f, gw, next)
  {
  }

  lemma RoutesDownSafe(prev: Inputs, f: Family, gw: bool, next: Inputs)
    ensures AllSafe(RoutesDown(prev), f, gw, next)
  {
    forall c | c in RoutesDown(prev)
      ensures RoutingOnly(c)
    {
      if c in GatewayRouteCmds(Delete, prev.cfg) {
        GatewayRouteShape(Delete, prev.cfg, c);
      } else if c in ExitRouteCmds(Delete, prev.exitOrder) {
        ExitRouteShape(Delete, prev.exitOrder, c);
      } else {
        PolicyRouteShape(Delete, prev, c);
      }
    }
  }

  lemma AllSafeAppend(a: seq<Cmd>, b: seq<Cmd>, f: Family, gw: bool, next: Inputs)
    requires AllSafe(a, f, gw, next) && AllSafe(b, f, gw, next)
    ensures AllSafe(a + b, f, gw, next)
  {
  }

  lemma ZeroTierSafe(inp: Inputs, f: Family, gw: bool, next: Inputs)
    ensures AllSafe(ZeroTierUp(inp), f, gw, next) && AllSafe(ZeroTierDown(inp), f, gw, next)
  {
  }

  lemma GatewayDownSafe(f: Family, next: Inputs)
    ensures AllSafe(GATEWAY_DOWN, f, false, next)
  {
  }

  lemma TeardownSafe(prev: Inputs, f: Family, next: Inputs)
    ensures AllSafe(Teardown(prev), f, false, next)
  {
    ZeroTierSafe(prev, f, false, next);
    AllSafeAppend(ZeroTierDown(prev), DelRules(PeerRules(prev.cfg)), f, false, next);
    GatewayDownSafe(f, next);
    AllSafeAppend(GATEWAY_DOWN, DelRules(OtherRules(prev)), f, false, next);
    RoutesDownSafe(prev, f, false, next);
    var a, b := ZeroTierDown(prev) + DelRules(PeerRules(prev.cfg)), GATEWAY_DOWN + DelRules(OtherRules(prev));
    AllSafeAppend(a, b, f, false, next);
    AllSafeAppend(a + b, RoutesDown(prev), f, false, next);
  }

  lemma StrictAppendsSafe(rules: seq<FwRule>, f: Family, gw: bool, next: Inputs)
    requires forall r :: r in rules ==> IsStrictRule(r)
    ensures AllSafe(StrictAppends(rules), f, gw, next)
  {
    forall c | c in StrictAppends(rules)
      ensures Safe(c, f, gw, next)
    {
      var i :| 0 <= i < |rules| && c == StrictAppends(rules)[i];
      assert rules[i] in rules;
    }
  }

  lemma StrictInitSafe(f: Family, gw: bool, next: Inputs)
    ensures AllSafe(StrictInit(V4) + StrictInit(V6), f, gw, next)
  {
  }

  lemma StrictUpSafe(cfg: Config, nets: seq<GatewayNet>, f: Family, gw: bool, next: Inputs)
    ensures AllSafe(StrictUp(cfg, nets), f, gw, next)
  {
    hide StrictEgress;
    hide StrictInit;
    hide Safe;
    StrictEgressShape(cfg, nets);
    StrictAppendsSafe(StrictEgress(cfg, nets), f, gw, next);
    StrictInitSafe(f, gw, next);
    AllSafeAppend(StrictInit(V4) + StrictInit(V6), StrictAppends(StrictEgress(cfg, nets)), f, gw, next);
  }

  /** Setup around the flush of one family's gateway chain, the point from which that chain can
      only hold rules of the next configuration. */
  function FlushAt(f: Family): nat {
    if f == V4 then 1 else 7
  }

  function SetupHead(next: Inputs, f: Family): seq<Cmd> {
    SharedRoutesUp(next) + GATEWAY_INIT[..FlushAt(f)]
  }

  function SetupTail(next: Inputs, f: Family): seq<Cmd> {
    GATEWAY_INIT[FlushAt(f) + 1..] + SetupRest(next)
  }

  lemma Regroup<T>(r: seq<T>, i: seq<T>, x: T, j: seq<T>, t: seq<T>)
    ensures r + ((i + ([x] + j)) + t) == (r + i) + ([x] + (j + t))
  {
  }

  lemma SetupSplit(next: Inputs, f: Family)
    ensures Setup(next) == SetupHead(next, f) + ([FlushChain(GatewayChain(f), false)] + SetupTail(next, f))
  {
    var n := FlushAt(f);
    var flush := FlushChain(GatewayChain(f), false);
    assert GATEWAY_INIT[n] == flush;
    assert GATEWAY_INIT == GATEWAY_INIT[..n] + ([flush] + GATEWAY_INIT[n + 1..]);
    Regroup(SharedRoutesUp(next), GATEWAY_INIT[..n], flush, GATEWAY_INIT[n + 1..], SetupRest(next));
  }

  lemma SetupHeadSafe(next: Inputs, f: Family)
    ensures AllSafe(SetupHead(next, f), f, false, next)
  {
    forall c | c in SharedRoutesUp(next)
      ensures RoutingOnly(c)
    {
      if c in ExitRouteCmds(Replace, next.exitOrder) {
        ExitRouteShape(Replace, next.exitOrder, c);
      } else {
        GatewayRouteShape(Replace, next.cfg, c);
      }
    }
    RoutesSafe(SharedRoutesUp(next), f, false, next);
    assert AllSafe(GATEWAY_INIT[..FlushAt(f)], f, false, next);
  }

  lemma GatewayAppendsSafe(f: Family, next: Inputs)
    ensures AllSafe(GatewayAppends(next.cfg, next.lan), f, true, next)
  {
    forall c | c in GatewayAppends(next.cfg, next.lan)
      ensures Safe(c, f, true, next)
    {
      GatewayAppendsShape(next.cfg, next.lan, c);
      assert c in GatewayUp(next.cfg, next.lan);
    }
  }

  lemma PolicyRoutesSafe(f: Family, next: Inputs)
    ensures AllSafe(PolicyRouteCmds(Replace, next), f, true, next)
  {
    forall c | c in PolicyRouteCmds(Replace, next)
      ensures RoutingOnly(c)
    {
      PolicyRouteShape(Replace, next, c);
    }
  }

  lemma InitTailSafe(f: Family, next: Inputs)
    ensures AllSafe(GATEWAY_INIT[FlushAt(f) + 1..], f, true, next)
  {
  }

  lemma SetupTailSafe(next: Inputs, f: Family)
    ensures AllSafe(SetupTail(next, f), f, true, next)
  {
    GatewayAppendsSafe(f, next);
    ZeroTierSafe(next, f, true, next);
    PolicyRoutesSafe(f, next);
    InitTailSafe(f, next);
    var rules := SetRules(OtherRules(next) + PeerRules(next.cfg));
    AllSafeAppend(GatewayAppends(next.cfg, next.lan), ZeroTierUp(next), f, true, next);
    AllSafeAppend(rules, PolicyRouteCmds(Replace, next), f, true, next);
    AllSafeAppend(GatewayAppends(next.cfg, next.lan) + ZeroTierUp(next), rules + PolicyRouteCmds(Replace, next), f,
        true, next);
    AllSafeAppend(GATEWAY_INIT[FlushAt(f) + 1..], SetupRest(next), f, true, next);
  }

  // ---------------------------------------------------------------- step 1

  ghost predicate SameUserChains(k: Kernel, k': Kernel) {
    forall ch: ChainId :: !ch.Forward? ==>
      ((ch in k'.chains <==> ch in k.chains) && (ch in k.chains ==> k'.chains[ch] == k.chains[ch]))
  }

  /** The guards of step 1 stand at the top of FORWARD, whatever was there before. */
  lemma {:induction false} GuardsShield(k: Kernel, sources: seq<Prefix>, env: nat -> Outcome, t: nat, s: Prefix)
    requires k.BuiltIns() && Run(k, GuardCmds(sources, true), env, t).ok
    requires s in sources || Shielded(k.chains[Forward(s.family)], s, false)
    ensures var k' := Run(k, GuardCmds(sources, true), env, t).Final();
            && k'.BuiltIns() && Shielded(k'.chains[Forward(s.family)], s, false)
            && SameUserChains(k, k')
    decreases |sources|
  {
    var cmds := GuardCmds(sources, true);
    if sources != [] {
      RunFromUnfold(StepUnder(env), k, cmds, t);
      var x := sources[0];
      var k' := Step(k, cmds[0], env(t)).0;
      assert cmds[0] == GuardCmd(x, true);
      assert k' == k.(chains := k.chains[Forward(x.family) := [Guard(x)] + k.chains[Forward(x.family)]]);
      assert cmds[1..] == GuardCmds(sources[1..], true);
      if x.family == s.family {
        if x == s {
          assert Shielded(k'.chains[Forward(s.family)], s, false);
        } else if s !in sources[1..] {
          ShieldedPrepend(k.chains[Forward(s.family)], Guard(x), s, false);
        }
      }
      GuardsShield(k', sources[1..], env, t + 1, s);
    }
  }

  // ---------------------------------------------------------------- packets

  lemma NoAcceptVerdict(rules: seq<FwRule>, p: Packet)
    requires forall r :: r in rules && r.FwRule? && Matches(r, p) ==> !r.target.Accept?
    ensures UserVerdict(rules, p) != Accepted
  {
  }

  lemma {:induction false} ShieldRejects(k: Kernel, rules: seq<FwRule>, p: Packet, s: Prefix, gw: bool,
                                         foreign: (nat, Packet) -> Verdict, next: Inputs)
    requires Shielded(rules, s, gw) && s.family == p.src.family && Contains(s, p.src) && p.inDev == WG_DEVICE
    requires StrictSane(k, s.family) && MatchesNoAccept(next, p)
    requires gw && GatewayChain(s.family) in k.chains ==>
               forall r :: r in k.chains[GatewayChain(s.family)] ==> EmitsAccept(next, s.family, r)
    ensures ForwardVerdict(k, rules, p, foreign) == Rejected
  {
    if rules[0] != Guard(s) {
      if StrictChain(s.family) in k.chains {
        NoAcceptVerdict(k.chains[StrictChain(s.family)], p);
      }
      if gw && GatewayChain(s.family) in k.chains {
        NoAcceptVerdict(k.chains[GatewayChain(s.family)], p);
      }
      ShieldRejects(k, rules[1..], p, s, gw, foreign, next);
    }
  }

  /** The packets the guarantee speaks of: from wg0, from a guarded source, matching no accept
      rule of the next gateway chain. */
  ghost predicate Protected(sources: seq<Prefix>, next: Inputs, p: Packet) {
    && p.inDev == WG_DEVICE
    && (exists s :: s in sources && Contains(s, p.src))
    && MatchesNoAccept(next, p)
  }

  ghost predicate RejectsProtected(k: Kernel, sources: seq<Prefix>, next: Inputs) {
    && k.BuiltIns()
    && forall p, foreign :: Protected(sources, next, p) ==> Forwarded(k, p, foreign) == Rejected
  }

  lemma HeldRejects(k: Kernel, gw4: bool, gw6: bool, sources: seq<Prefix>, next: Inputs)
    requires Held(k, V4, gw4, sources, next) && Held(k, V6, gw6, sources, next)
    ensures RejectsProtected(k, sources, next)
  {
    forall p, foreign | Protected(sources, next, p)
      ensures Forwarded(k, p, foreign) == Rejected
    {
      var s :| s in sources && Contains(s, p.src);
      var gw := if s.family == V4 then gw4 else gw6;
      ShieldRejects(k, k.chains[Forward(s.family)], p, s, gw, foreign, next);
    }
  }

  /** In every state, one of the two forms of the invariant holds for the family. */
  ghost predicate HeldEither(k: Kernel, f: Family, sources: seq<Prefix>, next: Inputs) {
    Held(k, f, false, sources, next) || Held(k, f, true, sources, next)
  }

  lemma FlushStep(k: Kernel, o: Outcome, f: Family, sources: seq<Prefix>, next: Inputs)
    requires Held(k, f, false, sources, next)
    ensures var (k', ok) := Step(k, FlushChain(GatewayChain(f), false), o);
            Held(k', f, false, sources, next) && (ok ==> Held(k', f, true, sources, next))
  {
    SafeStep(k, FlushChain(GatewayChain(f), false), o, f, false, sources, next);
    var k' := Step(k, FlushChain(GatewayChain(f), false), o).0;
    forall s | s in sources && s.family == f
      ensures Shielded(k'.chains[Forward(f)], s, true)
    {
      ShieldedMonotone(k'.chains[Forward(f)], s);
    }
  }

  /** The flush and everything after it. */
  lemma TailHeld(k: Kernel, next: Inputs, f: Family, env: nat -> Outcome, t: nat, sources: seq<Prefix>)
    requires Held(k, f, false, sources, next)
    ensures forall s :: s in Run(k, [FlushChain(GatewayChain(f), false)] + SetupTail(next, f), env, t).trace ==>
              HeldEither(s, f, sources, next)
  {
    var cmds := [FlushChain(GatewayChain(f), false)] + SetupTail(next, f);
    RunFromUnfold(StepUnder(env), k, cmds, t);
    FlushStep(k, env(t), f, sources, next);
    var (k', ok) := Step(k, cmds[0], env(t));
    assert StepUnder(env)(k, cmds[0], t) == (k', ok);
    if ok {
      assert cmds[1..] == SetupTail(next, f);
      SetupTailSafe(next, f);
      SafeRun(k', SetupTail(next, f), env, t + 1, f, true, sources, next);
    }
  }

  /** Steps 2 to 4 as one list of commands. */
  ghost function Middle(prev: Inputs, next: Inputs): seq<Cmd> {
    Teardown(prev) + StrictUp(next.cfg, next.nets) + Setup(next)
  }

  lemma MiddleHeld(k: Kernel, prev: Inputs, next: Inputs, env: nat -> Outcome, t: nat, f: Family, sources: seq<Prefix>)
    requires Held(k, f, false, sources, next)
    ensures forall s :: s in Run(k, Middle(prev, next), env, t).trace ==> HeldEither(s, f, sources, next)
  {
    var before := Teardown(prev) + StrictUp(next.cfg, next.nets);
    var head := before + SetupHead(next, f);
    var tail := [FlushChain(GatewayChain(f), false)] + SetupTail(next, f);
    SetupSplit(next, f);
    assert Middle(prev, next) == head + tail;
    TeardownSafe(prev, f, next);
    StrictUpSafe(next.cfg, next.nets, f, false, next);
    SetupHeadSafe(next, f);
    assert AllSafe(before, f, false, next);
    HeadAndTail(k, head, next, env, t, f, sources);
  }

  lemma HeadAndTail(k: Kernel, head: seq<Cmd>, next: Inputs, env: nat -> Outcome, t: nat, f: Family,
                    sources: seq<Prefix>)
    requires Held(k, f, false, sources, next) && AllSafe(head, f, false, next)
    ensures forall s ::
            s in Run(k, head + ([FlushChain(GatewayChain(f), false)] + SetupTail(next, f)), env, t).trace ==>
              HeldEither(s, f, sources, next)
  {
    hide Held;
    hide AllSafe;
    hide SetupTail;
    hide RunFrom;
    var tail := [FlushChain(GatewayChain(f), false)] + SetupTail(next, f);
    SafeRun(k, head, env, t, f, false, sources, next);
    var r := Run(k, head, env, t);
    if r.ok {
      var rest := Run(r.Final(), tail, env, t + |head|);
      RunAppend(StepUnder(env), k, head, tail, t, r, rest);
      TailHeld(r.Final(), next, f, env, t + |head|, sources);
    } else {
      RunAppendFails(StepUnder(env), k, head, tail, t);
    }
  }

  /** Step 1 establishes the invariant. */
  lemma GuardsHeld(k: Kernel, sources: seq<Prefix>, env: nat -> Outcome, t: nat, f: Family, next: Inputs)
    requires k.BuiltIns() && StrictSane(k, f)
    requires Run(k, GuardCmds(sources, true), env, t).ok
    ensures Held(Run(k, GuardCmds(sources, true), env, t).Final(), f, false, sources, next)
  {
    var guarded := Run(k, GuardCmds(sources, true), env, t).Final();
    if sources != [] {
      GuardsShield(k, sources, env, t, sources[0]);
    } else {
      assert guarded == k;
    }
    forall x | x in sources
      ensures Shielded(guarded.chains[Forward(x.family)], x, false)
    {
      GuardsShield(k, sources, env, t, x);
    }
  }

  lemma EitherRejects(k: Kernel, sources: seq<Prefix>, next: Inputs)
    requires HeldEither(k, V4, sources, next) && HeldEither(k, V6, sources, next)
    ensures RejectsProtected(k, sources, next)
  {
    HeldRejects(k, Held(k, V4, true, sources, next), Held(k, V6, true, sources, next), sources, next);
  }

  lemma GuardedTransition(k: Kernel, prev: Inputs, next: Inputs, env: nat -> Outcome, t: nat,
                          sources: seq<Prefix>, guarded: Outcomes<Kernel>)
    requires k.BuiltIns() && StrictSane(k, V4) && StrictSane(k, V6)
    requires guarded == Run(k, GuardCmds(sources, true), env, t) && guarded.ok
    ensures forall s :: s in Run(guarded.Final(), Middle(prev, next), env, t + |sources|).trace ==>
              RejectsProtected(s, sources, next)
  {
    hide Held;
    hide HeldEither;
    hide RejectsProtected;
    hide Kernel.BuiltIns;
    hide StrictSane;
    hide Middle;
    hide RunFrom;
    hide GuardCmds;
    GuardsHeld(k, sources, env, t, V4, next);
    GuardsHeld(k, sources, env, t, V6, next);
    MiddleHeld(guarded.Final(), prev, next, env, t + |sources|, V4, sources);
    MiddleHeld(guarded.Final(), prev, next, env, t + |sources|, V6, sources);
    forall s | s in Run(guarded.Final(), Middle(prev, next), env, t + |sources|).trace
      ensures RejectsProtected(s, sources, next)
    {
      EitherRejects(s, sources, next);
    }
  }

  /** Fail-closed transition: once step 1 has succeeded, every state that steps 2, 3 and 4 pass
      through, including the one an error leaves behind, rejects every protected packet of every
      source that is strict in either configuration. No fault schedule, foreign firewall rule or
      leftover chain content changes that. */
  lemma FailClosedTransition(k: Kernel, prev: Inputs, next: Inputs, env: nat -> Outcome, t: nat,
                             guarded: Outcomes<Kernel>)
    requires k.BuiltIns() && StrictSane(k, V4) && StrictSane(k, V6)
    requires guarded == Run(k, GuardCmds(Affected(prev.cfg, next.cfg), true), env, t) && guarded.ok
    ensures forall s :: s in Run(guarded.Final(), Middle(prev, next), env, t + |Affected(prev.cfg, next.cfg)|).trace ==>
              RejectsProtected(s, Affected(prev.cfg, next.cfg), next)
  {
    hide Affected;
    hide RejectsProtected;
    hide StrictSane;
    hide Middle;
    GuardedTransition(k, prev, next, env, t, Affected(prev.cfg, next.cfg), guarded);
  }
}
