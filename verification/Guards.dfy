/** The temporary guards of Reconcile over whole runs: how often each one stands in FORWARD. */
module Guards {
  import opened Lists
  import opened Network
  import opened Models
  import opened Kernel
  import opened Runs
  import opened IpRules
  import opened StrictChains
  import opened GatewayChains
  import opened Routes
  import opened Generators
  import opened FailClosed

  /** How many copies of the guard of a source FORWARD holds. */
  ghost function Copies(k: Kernel, s: Prefix): nat
    requires k.BuiltIns()
  {
    Count(k.chains[Forward(s.family)], Guard(s))
  }

  /** All commands of Reconcile: guards, steps 2 to 4, release. */
  ghost function ReconcileCmds(prev: Inputs, next: Inputs): seq<Cmd> {
    var sources := Affected(prev.cfg, next.cfg);
    GuardCmds(sources, true) + (Middle(prev, next) + GuardCmds(sources, false))
  }

  ghost predicate Neutral(c: Cmd, f: Family, next: Inputs) {
    Safe(c, f, false, next) || Safe(c, f, true, next)
  }

  ghost function One(b: bool): nat {
    if b then 1 else 0
  }

  lemma NeutralApply(k: Kernel, c: Cmd, s: Prefix, next: Inputs)
    requires k.BuiltIns() && Neutral(c, s.family, next)
    ensures Apply(k, c).0.BuiltIns() && Copies(Apply(k, c).0, s) == Copies(k, s)
  {
    var rules := k.chains[Forward(s.family)];
    if c.Remove? && c.chain == Forward(s.family) {
      CountRemoveFirst(rules, c.rule, Guard(s));
    } else if c.EnsureFirst? && c.chain == Forward(s.family) {
      assert ([c.rule] + rules)[1..] == rules;
    }
  }

  lemma NeutralAdd(k: Kernel, ch: ChainId, r: FwRule, s: Prefix)
    requires k.BuiltIns() && (ch == Forward(s.family) ==> r != Guard(s))
    ensures Apply(k, Prepend(ch, r)).0.BuiltIns() && Copies(Apply(k, Prepend(ch, r)).0, s) == Copies(k, s)
    ensures Apply(k, Append(ch, r)).0.BuiltIns() && Copies(Apply(k, Append(ch, r)).0, s) == Copies(k, s)
  {
    var rules := k.chains[Forward(s.family)];
    assert ([r] + rules)[1..] == rules;
    CountSnoc(rules, r, Guard(s));
  }

  lemma NeutralStep(k: Kernel, c: Cmd, o: Outcome, s: Prefix, next: Inputs)
    requires k.BuiltIns() && Neutral(c, s.family, next)
    ensures Step(k, c, o).0.BuiltIns() && Copies(Step(k, c, o).0, s) == Copies(k, s)
  {
    hide Apply;
    hide Step;
    ChainOutcomes(k, c, o);
    NeutralApply(k, c, s, next);
    if c.EnsureFirst? || c.EnsureLast? {
      NeutralAdd(k, c.chain, c.rule, s);
    }
  }

  ghost function CopiesFn(s: Prefix, n: nat): Kernel -> bool {
    (k: Kernel) => k.BuiltIns() && Copies(k, s) == n
  }

  lemma NeutralRun(k: Kernel, cmds: seq<Cmd>, env: nat -> Outcome, t: nat, s: Prefix, next: Inputs)
    requires k.BuiltIns() && forall c :: c in cmds ==> Neutral(c, s.family, next)
    ensures var k' := Run(k, cmds, env, t).Final(); k'.BuiltIns() && Copies(k', s) == Copies(k, s)
  {
    var inv := CopiesFn(s, Copies(k, s));
    forall x, c, o | inv(x) && c in cmds
      ensures inv(Step(x, c, o).0)
    {
      NeutralStep(x, c, o, s, next);
    }
    RunKeeps(inv, k, cmds, env, t);
    assert inv(Run(k, cmds, env, t).Final());
  }

  lemma MiddleNeutral(prev: Inputs, next: Inputs, f: Family)
    ensures forall c :: c in Middle(prev, next) ==> Neutral(c, f, next)
  {
    TeardownSafe(prev, f, next);
    StrictUpSafe(next.cfg, next.nets, f, false, next);
    SetupHeadSafe(next, f);
    SetupTailSafe(next, f);
    SetupSplit(next, f);
    assert Safe(FlushChain(GatewayChain(f), false), f, true, next);
  }

  /** Whether a plain command takes effect, and whether it is then reported as done. */
  predicate Lands(o: Outcome) {
    o == Done || o == SecondHalf || o == Unreported
  }

  /** Step 1 raises each guard by at most one, and by exactly one when it succeeds. */
  lemma {:induction false} GuardsAdded(k: Kernel, sources: seq<Prefix>, env: nat -> Outcome, t: nat, s: Prefix,
                                       r: Outcomes<Kernel>)
    requires k.BuiltIns() && NoDuplicates(sources) && r == Run(k, GuardCmds(sources, true), env, t)
    ensures r.Final().BuiltIns()
    ensures Copies(k, s) <= Copies(r.Final(), s) <= Copies(k, s) + (if s in sources then 1 else 0)
    ensures r.ok ==> Copies(r.Final(), s) == Copies(k, s) + (if s in sources then 1 else 0)
    decreases |sources|
  {
    var cmds := GuardCmds(sources, true);
    if sources != [] {
      RunFromUnfold(StepUnder(env), k, cmds, t);
      var x := sources[0];
      assert cmds[0] == GuardCmd(x, true);
      assert cmds[1..] == GuardCmds(sources[1..], true);
      var (k', ok) := Step(k, cmds[0], env(t));
      assert StepUnder(env)(k, cmds[0], t) == (k', ok);
      GuardAdded(k, x, env(t), s);
      if ok {
        GuardsAdded(k', sources[1..], env, t + 1, s, Run(k', RestCmds(sources, true), env, t + 1));
        assert s == x ==> s !in sources[1..];
      }
    }
  }

  ghost function RestCmds(sources: seq<Prefix>, add: bool): seq<Cmd>
    requires sources != []
  {
    GuardCmds(sources[1..], add)
  }

  lemma GuardAdded(k: Kernel, x: Prefix, o: Outcome, s: Prefix)
    requires k.BuiltIns()
    ensures var (k', ok) := Step(k, GuardCmd(x, true), o);
            && k'.BuiltIns()
            && Copies(k', s) == Copies(k, s) + One(Lands(o) && x == s)
            && (ok <==> o == Done || o == SecondHalf)
  {
    var rules := k.chains[Forward(x.family)];
    assert ([Guard(x)] + rules)[1..] == rules;
  }

  lemma GuardRemoved(k: Kernel, x: Prefix, o: Outcome, s: Prefix)
    requires k.BuiltIns()
    ensures var (k', ok) := Step(k, GuardCmd(x, false), o);
            && k'.BuiltIns() && ok
            && Copies(k', s) == Copies(k, s) - One(Lands(o) && x == s && Copies(k, s) > 0)
  {
    var rules := k.chains[Forward(x.family)];
    CountRemoveFirst(rules, Guard(x), Guard(s));
    CountIn(rules, Guard(x));
  }

  /** Step 5 always runs to its end. The guard of the j-th source loses exactly one copy if the j-th
      deletion takes effect, and none otherwise. */
  lemma {:induction false} GuardReleased(k: Kernel, sources: seq<Prefix>, env: nat -> Outcome, t: nat, j: nat,
                                         r: Outcomes<Kernel>)
    requires k.BuiltIns() && NoDuplicates(sources) && r == Run(k, GuardCmds(sources, false), env, t)
    requires j < |sources| && Copies(k, sources[j]) > 0
    ensures r.ok && r.Final().BuiltIns()
    ensures Copies(r.Final(), sources[j]) == Copies(k, sources[j]) - One(Lands(env(t + j)))
    decreases |sources|
  {
    hide Copies;
    var x, s := sources[0], sources[j];
    var k' := Step(k, GuardCmd(x, false), env(t)).0;
    ReleaseStep(k, sources, env, t, r);
    GuardRemoved(k, x, env(t), s);
    if j == 0 {
      OtherGuardsStay(k', sources[1..], env, t + 1, s, Run(k', RestCmds(sources, false), env, t + 1));
    } else {
      assert sources[1..][j - 1] == s;
      GuardReleased(k', sources[1..], env, t + 1, j - 1, Run(k', RestCmds(sources, false), env, t + 1));
    }
  }

  /** The deletions leave every other guard alone. */
  lemma {:induction false} OtherGuardsStay(k: Kernel, sources: seq<Prefix>, env: nat -> Outcome, t: nat, s: Prefix,
                                           r: Outcomes<Kernel>)
    requires k.BuiltIns() && s !in sources && r == Run(k, GuardCmds(sources, false), env, t)
    ensures r.ok && r.Final().BuiltIns() && Copies(r.Final(), s) == Copies(k, s)
    decreases |sources|
  {
    hide Copies;
    if sources != [] {
      var k' := Step(k, GuardCmd(sources[0], false), env(t)).0;
      ReleaseStep(k, sources, env, t, r);
      GuardRemoved(k, sources[0], env(t), s);
      OtherGuardsStay(k', sources[1..], env, t + 1, s, Run(k', RestCmds(sources, false), env, t + 1));
    }
  }

  lemma ReleaseStep(k: Kernel, sources: seq<Prefix>, env: nat -> Outcome, t: nat, r: Outcomes<Kernel>)
    requires sources != [] && r == Run(k, GuardCmds(sources, false), env, t)
    ensures var k' := Step(k, GuardCmd(sources[0], false), env(t)).0;
            var rest := Run(k', RestCmds(sources, false), env, t + 1);
            r.ok == rest.ok && r.Final() == rest.Final()
  {
    hide RunFrom;
    var cmds := GuardCmds(sources, false);
    RunFromUnfold(StepUnder(env), k, cmds, t);
    assert cmds[0] == GuardCmd(sources[0], false) && cmds[1..] == GuardCmds(sources[1..], false);
    assert StepUnder(env)(k, cmds[0], t) == Step(k, cmds[0], env(t));
  }

  /** The copies of a guard after a run of Reconcile of this shape: one for each copy before, and one
      more for an affected source once step 1 has put it there, unless its own deletion in step 5 is
      reached and takes effect. */
  ghost predicate Conserved(k: Kernel, sources: seq<Prefix>, release: nat, env: nat -> Outcome, s: Prefix,
                            r: Outcomes<Kernel>) {
    && k.BuiltIns() && r.Proper() && r.Final().BuiltIns()
    && Copies(k, s) <= Copies(r.Final(), s) <= Copies(k, s) + One(s in sources)
    && (r.ok ==> forall j :: 0 <= j < |sources| && sources[j] == s ==>
                   (Copies(r.Final(), s) == Copies(k, s) <==> Lands(env(release + j))))
  }

  /** Neutral commands and the release, from a state in which every guard of the list stands. */
  lemma ThenRelease(k0: Kernel, k: Kernel, sources: seq<Prefix>, mid: seq<Cmd>, next: Inputs,
                    env: nat -> Outcome, t: nat, s: Prefix, r: Outcomes<Kernel>)
    requires k0.BuiltIns() && k.BuiltIns() && NoDuplicates(sources)
    requires forall c :: c in mid ==> Neutral(c, s.family, next)
    requires r == Run(k, mid + GuardCmds(sources, false), env, t)
    requires Copies(k, s) == Copies(k0, s) + One(s in sources)
    ensures Conserved(k0, sources, t + |mid|, env, s, r)
  {
    hide Copies;
    hide RunFrom;
    hide Neutral;
    hide NoDuplicates;
    var rm, rd := TwoPhases(StepUnder(env), k, mid, GuardCmds(sources, false), t, r);
    NeutralRun(k, mid, env, t, s, next);
    if rm.ok {
      ReleaseCounts(rm.Final(), sources, env, t + |mid|, s, rd);
    }
  }

  lemma ReleaseCounts(k: Kernel, sources: seq<Prefix>, env: nat -> Outcome, t: nat, s: Prefix, r: Outcomes<Kernel>)
    requires k.BuiltIns() && NoDuplicates(sources) && r == Run(k, GuardCmds(sources, false), env, t)
    requires s in sources ==> Copies(k, s) > 0
    ensures r.ok && r.Final().BuiltIns()
    ensures s !in sources ==> Copies(r.Final(), s) == Copies(k, s)
    ensures forall j :: 0 <= j < |sources| && sources[j] == s ==>
            Copies(r.Final(), s) == Copies(k, s) - One(Lands(env(t + j)))
  {
    hide Copies;
    if s in sources {
      forall j | 0 <= j < |sources| && sources[j] == s
        ensures r.ok && r.Final().BuiltIns() && Copies(r.Final(), s) == Copies(k, s) - One(Lands(env(t + j)))
      {
        GuardReleased(k, sources, env, t, j, r);
      }
      var j :| 0 <= j < |sources| && sources[j] == s;
    } else {
      OtherGuardsStay(k, sources, env, t, s, r);
    }
  }

  lemma GuardedRun(k: Kernel, sources: seq<Prefix>, mid: seq<Cmd>, next: Inputs,
                   env: nat -> Outcome, t: nat, s: Prefix, r: Outcomes<Kernel>)
    requires k.BuiltIns() && NoDuplicates(sources)
    requires forall c :: c in mid ==> Neutral(c, s.family, next)
    requires r == Run(k, GuardCmds(sources, true) + (mid + GuardCmds(sources, false)), env, t)
    ensures Conserved(k, sources, t + |sources| + |mid|, env, s, r)
  {
    hide Copies;
    hide RunFrom;
    hide Neutral;
    hide NoDuplicates;
    var add := GuardCmds(sources, true);
    var ra, rest := TwoPhases(StepUnder(env), k, add, mid + GuardCmds(sources, false), t, r);
    GuardsAdded(k, sources, env, t, s, ra);
    if ra.ok {
      ThenRelease(k, ra.Final(), sources, mid, next, env, t + |add|, s, rest);
    }
  }

  /** Guard conservation: whatever fails where, a run of Reconcile never lowers the number of copies of
      a guard, raises it by at most one, and only for affected sources. A run that succeeds leaves the
      number of a guard as it was if and only if its own deletion takes effect, whatever was refused and
      tolerated before: that deletion is the only thing the outcome hangs on. */
  lemma GuardConservation(k: Kernel, prev: Inputs, next: Inputs, env: nat -> Outcome, t: nat, s: Prefix,
                          r: Outcomes<Kernel>)
    requires k.BuiltIns() && r == Run(k, ReconcileCmds(prev, next), env, t)
    ensures var sources := Affected(prev.cfg, next.cfg);
            Conserved(k, sources, t + |sources| + |Middle(prev, next)|, env, s, r)
  {
    hide Conserved;
    hide RunFrom;
    hide Distinct;
    DistinctElements(StrictSources(prev.cfg) + StrictSources(next.cfg));
    hide Middle;
    hide StrictSources;
    MiddleNeutral(prev, next, s.family);
    GuardedRun(k, Affected(prev.cfg, next.cfg), Middle(prev, next), next, env, t, s, r);
  }

  /** A swallowed deletion is how a guard outlives a Reconcile that reports success: with one copy more
      than before exactly if its own deletion had no effect. */
  lemma GuardLeftBehind(k: Kernel, prev: Inputs, next: Inputs, env: nat -> Outcome, t: nat, j: nat, r: Outcomes<Kernel>)
    requires k.BuiltIns() && r == Run(k, ReconcileCmds(prev, next), env, t) && r.ok
    requires j < |Affected(prev.cfg, next.cfg)|
    ensures var sources := Affected(prev.cfg, next.cfg);
            r.Final().BuiltIns()
            && (Copies(r.Final(), sources[j]) == Copies(k, sources[j]) + 1 <==>
                !Lands(env(t + |sources| + |Middle(prev, next)| + j)))
  {
    hide Affected;
    hide Middle;
    hide Copies;
    hide RunFrom;
    GuardConservation(k, prev, next, env, t, Affected(prev.cfg, next.cfg)[j], r);
  }

  // ---------------------------------------------------------------- the premise, over runs

  /** What the fail-closed guarantee relies on: the strict chains can accept nothing. */
  ghost predicate Sane(k: Kernel) {
    k.BuiltIns() && StrictSane(k, V4) && StrictSane(k, V6)
  }

  lemma SaneApply(k: Kernel, c: Cmd, f: Family, next: Inputs)
    requires k.BuiltIns() && StrictSane(k, f)
    requires Neutral(c, f, next) || (c.Prepend? && c.chain.Forward?) || c.Remove?
    ensures Apply(k, c).0.BuiltIns() && StrictSane(Apply(k, c).0, f)
  {
    if c.Remove? && c.chain == StrictChain(f) && c.chain in k.chains {
      forall x | x in RemoveFirst(k.chains[c.chain], c.rule)
        ensures x in k.chains[c.chain]
      {
        RemoveFirstSubset(k.chains[c.chain], c.rule, x);
      }
    }
  }

  lemma SaneAdd(k: Kernel, ch: ChainId, r: FwRule, f: Family)
    requires k.BuiltIns() && StrictSane(k, f) && ch != StrictChain(f)
    ensures Apply(k, Prepend(ch, r)).0.BuiltIns() && StrictSane(Apply(k, Prepend(ch, r)).0, f)
    ensures Apply(k, Append(ch, r)).0.BuiltIns() && StrictSane(Apply(k, Append(ch, r)).0, f)
  {
  }

  lemma SaneStep(k: Kernel, c: Cmd, o: Outcome, f: Family, next: Inputs)
    requires k.BuiltIns() && StrictSane(k, f)
    requires Neutral(c, f, next) || (c.Prepend? && c.chain.Forward?) || c.Remove?
    ensures Step(k, c, o).0.BuiltIns() && StrictSane(Step(k, c, o).0, f)
  {
    hide Apply;
    hide Step;
    ChainOutcomes(k, c, o);
    SaneApply(k, c, f, next);
    if c.EnsureFirst? || c.EnsureLast? {
      SaneAdd(k, c.chain, c.rule, f);
    }
  }

  ghost function SaneFn(): Kernel -> bool {
    (k: Kernel) => Sane(k)
  }

  lemma CommandsNeutral(prev: Inputs, next: Inputs, f: Family)
    ensures forall c :: c in ReconcileCmds(prev, next) ==>
              Neutral(c, f, next) || (c.Prepend? && c.chain.Forward?) || c.Remove?
  {
    hide Affected;
    hide Middle;
    MiddleNeutral(prev, next, f);
  }

  /** It holds in every state a run of Reconcile passes through, once it holds at the start. So it
      holds in every state reached by any sequence of Reconciles, whatever fails in them. */
  lemma SaneForever(k: Kernel, prev: Inputs, next: Inputs, env: nat -> Outcome, t: nat)
    requires Sane(k)
    ensures forall s :: s in Run(k, ReconcileCmds(prev, next), env, t).trace ==> Sane(s)
  {
    hide ReconcileCmds;
    hide Neutral;
    hide StrictSane;
    hide Kernel.BuiltIns;
    hide Step;
    CommandsNeutral(prev, next, V4);
    CommandsNeutral(prev, next, V6);
    var inv := SaneFn();
    forall s, c, o | inv(s) && c in ReconcileCmds(prev, next)
      ensures inv(Step(s, c, o).0)
    {
      SaneStep(s, c, o, V4, next);
      SaneStep(s, c, o, V6, next);
    }
    RunKeeps(inv, k, ReconcileCmds(prev, next), env, t);
    assert forall s :: inv(s) ==> Sane(s);
  }
}
