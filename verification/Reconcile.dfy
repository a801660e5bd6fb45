/** The program that drives the kernel: it issues the generated commands one after the other and
    stops at the first that fails. */
module Reconcile {
  import opened Lists
  import opened Network
  import opened Models
  import opened Kernel
  import opened Runs
  import opened IpRules
  import opened StrictChains
  import opened GatewayChains
  import opened Routes
  import opened Generators
  import opened FailClosed
  import opened Guards
  import opened Convergence
  import opened FaultFreeRuns
  import opened Confinement
  import opened Agreement

  /** The step whose commands failed. */
  datatype Failure = InstallingGuards | RemovingPrevious | UpdatingChains | InstallingNew | RemovingGuards

  /** No copy of any guard is lost, and at most one is added, for the given sources only. */
  ghost predicate GuardsConserved(k: Kernel, k': Kernel, sources: seq<Prefix>) {
    && k.BuiltIns() && k'.BuiltIns()
    && forall s :: Copies(k, s) <= Copies(k', s) <= Copies(k, s) + One(s in sources)
  }

  /** The host: live kernel state, and how the environment treats each command. */
  class Host {
    var kernel: Kernel
    var issued: nat
    const env: nat -> Outcome

    constructor (kernel: Kernel, env: nat -> Outcome)
      ensures this.kernel == kernel && this.issued == 0 && this.env == env
    {
      this.kernel := kernel;
      this.issued := 0;
      this.env := env;
    }

    method RunCommand(c: Cmd) returns (ok: bool)
      modifies this
      ensures (kernel, ok) == Step(old(kernel), c, env(old(issued)))
      ensures issued == old(issued) + 1
    {
      var (k, done) := Step(kernel, c, env(issued));
      kernel, ok := k, done;
      issued := issued + 1;
    }

    /** Issues the commands in order and stops at the first failure: exactly a Run. */
    method ApplyCommands(cmds: seq<Cmd>) returns (ok: bool)
      modifies this
      ensures var r := Run(old(kernel), cmds, env, old(issued)); ok == r.ok && kernel == r.Final()
      ensures ok ==> issued == old(issued) + |cmds|
    {
      hide RunFrom;
      hide Step;
      var step := StepUnder(env);
      ghost var whole := Run(kernel, cmds, env, issued);
      var i := 0;
      while i < |cmds|
        invariant 0 <= i <= |cmds| && issued == old(issued) + i
        invariant Run(kernel, cmds[i..], env, issued).ok == whole.ok
        invariant Run(kernel, cmds[i..], env, issued).Final() == whole.Final()
      {
        RunFromUnfold(step, kernel, cmds[i..], issued);
        assert cmds[i..][0] == cmds[i] && cmds[i..][1..] == cmds[i + 1..];
        assert step(kernel, cmds[i], issued) == Step(kernel, cmds[i], env(issued));
        ok := RunCommand(cmds[i]);
        if !ok {
          return;
        }
        i := i + 1;
      }
      RunEmpty(step, kernel, issued);
      assert cmds[i..] == [];
      ok := true;
    }

    method TeardownCommands(prev: Inputs) returns (cmds: seq<Cmd>)
      ensures cmds == Teardown(prev)
    {
      var peer := GeneratePeerRules(prev.cfg);
      var local := GenerateLocalRules(prev.cfg, prev.lan);
      var gateway := GenerateGatewayRules(prev.cfg);
      var device := GenerateDeviceRules(prev.cfg);
      var gatewayRoutes := GenerateGatewayRoutes(Delete, prev.cfg);
      var exitRoutes := GenerateExitRoutes(Delete, prev.exitOrder);
      var policyRoutes := GeneratePolicyRoutes(Delete, prev);
      cmds := (ZeroTierDown(prev) + DelRules(peer)) + (GATEWAY_DOWN + DelRules(local + (gateway + device)))
              + (gatewayRoutes + exitRoutes + policyRoutes);
    }

    method StrictCommands(next: Inputs) returns (cmds: seq<Cmd>)
      ensures cmds == StrictUp(next.cfg, next.nets)
    {
      var rules := GenerateStrictEgress(next.cfg, next.nets);
      cmds := StrictInit(V4) + StrictInit(V6) + StrictAppends(rules);
    }

    method SetupCommands(next: Inputs) returns (cmds: seq<Cmd>)
      ensures cmds == Setup(next)
    {
      var exitRoutes := GenerateExitRoutes(Replace, next.exitOrder);
      var gatewayRoutes := GenerateGatewayRoutes(Replace, next.cfg);
      var chains := GenerateGatewayUp(next.cfg, next.lan);
      var local := GenerateLocalRules(next.cfg, next.lan);
      var gateway := GenerateGatewayRules(next.cfg);
      var device := GenerateDeviceRules(next.cfg);
      var peer := GeneratePeerRules(next.cfg);
      var policyRoutes := GeneratePolicyRoutes(Replace, next);
      var rules := SetRules((local + (gateway + device)) + peer);
      cmds := (exitRoutes + gatewayRoutes) + ((chains + ZeroTierUp(next)) + (rules + policyRoutes));
      SetupGrouping(next, exitRoutes + gatewayRoutes, rules + policyRoutes);
    }

    /** Two lists one after the other, as one run. */
    method ApplyBoth(a: seq<Cmd>, b: seq<Cmd>) returns (first: bool, ok: bool)
      modifies this
      ensures var r := Run(old(kernel), a + b, env, old(issued)); ok == r.ok && kernel == r.Final()
      ensures ok ==> issued == old(issued) + |a + b|
      ensures ok ==> first
    {
      ghost var whole := Run(kernel, a + b, env, issued);
      ghost var ra, rb := TwoPhases(StepUnder(env), kernel, a, b, issued, whole);
      first := ApplyCommands(a);
      if !first {
        return false, false;
      }
      ok := ApplyCommands(b);
    }

    /** Steps 2 to 4. */
    method ReplaceState(prev: Inputs, next: Inputs) returns (failure: Option<Failure>)
      modifies this
      ensures var r := Run(old(kernel), Middle(prev, next), env, old(issued));
              (failure == None <==> r.ok) && kernel == r.Final()
      ensures failure == None ==> issued == old(issued) + |Middle(prev, next)|
      ensures failure.Some? ==> failure.value in {RemovingPrevious, UpdatingChains, InstallingNew}
    {
      hide RunFrom;
      hide Teardown;
      hide StrictUp;
      hide Setup;
      var teardown := TeardownCommands(prev);
      var strict := StrictCommands(next);
      var setup := SetupCommands(next);
      assert Middle(prev, next) == (teardown + strict) + setup;
      hide Middle;
      ghost var whole := Run(kernel, (teardown + strict) + setup, env, issued);
      ghost var ra, rb := TwoPhases(StepUnder(env), kernel, teardown + strict, setup, issued, whole);
      var removed, ok := ApplyBoth(teardown, strict);
      if !ok {
        return Some(if removed then UpdatingChains else RemovingPrevious);
      }
      ok := ApplyCommands(setup);
      failure := if ok then None else Some(InstallingNew);
    }

    method AffectedSources(previous: Config, next: Config) returns (sources: seq<Prefix>)
      ensures sources == Affected(previous, next)
    {
      var before := StrictPeerSources(previous);
      var after := StrictPeerSources(next);
      sources := CollectDistinct(before + after);
    }

    /** Guards up, steps 2 to 4, guards down. */
    method Transition(prev: Inputs, next: Inputs, sources: seq<Prefix>) returns (failure: Option<Failure>)
      modifies this
      ensures var guarded := Run(old(kernel), GuardCmds(sources, true), env, old(issued));
              var mid := Run(guarded.Final(), Middle(prev, next), env, old(issued) + |sources|);
              var released := Run(mid.Final(), GuardCmds(sources, false), env, old(issued) + |sources|
                  + |Middle(prev, next)|);
              && (failure == None <==> guarded.ok && mid.ok && released.ok)
              && kernel == (if !guarded.ok then guarded.Final() else if !mid.ok then mid.Final() else released.Final())
              && (failure.Some? && failure.value in {RemovingPrevious, UpdatingChains, InstallingNew} ==>
                 guarded.ok && !mid.ok)
    {
      hide RunFrom;
      hide Middle;
      var ok := ApplyCommands(GuardCmds(sources, true));
      if !ok {
        return Some(InstallingGuards);
      }
      failure := ReplaceState(prev, next);
      if failure.Some? {
        return;
      }
      ok := ApplyCommands(GuardCmds(sources, false));
      failure := if ok then None else Some(RemovingGuards);
    }

    /** Reconcile as a whole. With wg0 down nothing happens. Otherwise the commands of the
        five steps run until one fails. A failure in steps 2 to 4 leaves every protected packet
        rejected; whatever happens, no guard is ever lost and at most one copy of each is added. */
    method Reconcile(interfaceUp: bool, prev: Inputs, next: Inputs) returns (failure: Option<Failure>)
      requires Sane(kernel)
      modifies this
      ensures Sane(kernel)
      ensures !interfaceUp ==> failure == None && kernel == old(kernel)
      ensures interfaceUp ==>
                var r := Run(old(kernel), ReconcileCmds(prev, next), env, old(issued));
                (failure == None <==> r.ok) && kernel == r.Final()
      ensures interfaceUp && failure.Some? && failure.value in {RemovingPrevious, UpdatingChains, InstallingNew} ==>
                RejectsProtected(kernel, Affected(prev.cfg, next.cfg), next)
      ensures interfaceUp ==> GuardsConserved(old(kernel), kernel, Affected(prev.cfg, next.cfg))
    {
      hide *;
      if !interfaceUp {
        return None;
      }
      var sources := AffectedSources(prev.cfg, next.cfg);
      ghost var guarded := Run(kernel, GuardCmds(sources, true), env, issued);
      ghost var mid := Run(guarded.Final(), Middle(prev, next), env, issued + |sources|);
      ghost var released := Run(mid.Final(), GuardCmds(sources, false), env, issued + |sources| + |Middle(prev, next)|);
      WholeRun(kernel, prev, next, env, issued, sources, guarded, mid, released);
      failure := Transition(prev, next, sources);
    }
  }

  lemma SetupGrouping(next: Inputs, routes: seq<Cmd>, rest: seq<Cmd>)
    ensures routes + ((GatewayUp(next.cfg, next.lan) + ZeroTierUp(next)) + rest)
            == routes + (GATEWAY_INIT + ((GatewayAppends(next.cfg, next.lan) + ZeroTierUp(next)) + rest))
  {
    hide GatewayAppends;
    hide ZeroTierUp;
  }

  /** The five steps make up the whole run; the guards are conserved, and the state in which steps
      2 to 4 end rejects every protected packet. */
  lemma WholeRun(k: Kernel, prev: Inputs, next: Inputs, env: nat -> Outcome, t: nat, sources: seq<Prefix>,
                 guarded: Outcomes<Kernel>, mid: Outcomes<Kernel>, released: Outcomes<Kernel>)
    requires Sane(k) && sources == Affected(prev.cfg, next.cfg)
    requires guarded == Run(k, GuardCmds(sources, true), env, t)
    requires mid == Run(guarded.Final(), Middle(prev, next), env, t + |sources|)
    requires released == Run(mid.Final(), GuardCmds(sources, false), env, t + |sources| + |Middle(prev, next)|)
    ensures var r := Run(k, ReconcileCmds(prev, next), env, t);
            && (r.ok <==> guarded.ok && mid.ok && released.ok)
            && r.Final() == (if !guarded.ok then guarded.Final() else if !mid.ok then mid.Final() else released.Final())
            && GuardsConserved(k, r.Final(), sources) && Sane(r.Final())
    ensures guarded.ok ==> RejectsProtected(mid.Final(), sources, next)
  {
    hide Affected;
    hide Middle;
    hide RunFrom;
    hide RejectsProtected;
    hide Sane;
    hide GuardsConserved;
    var r := Run(k, ReconcileCmds(prev, next), env, t);
    ThreePhases(StepUnder(env), k, GuardCmds(sources, true), Middle(prev, next), GuardCmds(sources, false), t,
        guarded, mid, released, r);
    ConservedForAll(k, prev, next, env, t, sources, r);
    SaneForever(k, prev, next, env, t);
    assert r.Final() in r.trace;
    MiddleEnd(k, prev, next, env, t, sources, guarded, mid);
  }

  lemma MiddleEnd(k: Kernel, prev: Inputs, next: Inputs, env: nat -> Outcome, t: nat, sources: seq<Prefix>,
                  guarded: Outcomes<Kernel>, mid: Outcomes<Kernel>)
    requires Sane(k) && sources == Affected(prev.cfg, next.cfg)
    requires guarded == Run(k, GuardCmds(sources, true), env, t)
    requires mid == Run(guarded.Final(), Middle(prev, next), env, t + |sources|)
    ensures guarded.ok ==> RejectsProtected(mid.Final(), sources, next)
  {
    hide Affected;
    hide Middle;
    hide RejectsProtected;
    hide RunFrom;
    hide Kernel.BuiltIns;
    hide StrictSane;
    hide GuardCmds;
    assert mid.Final() in mid.trace;
    if guarded.ok {
      FailClosedTransition(k, prev, next, env, t, guarded);
    }
  }

  lemma ConservedForAll(k: Kernel, prev: Inputs, next: Inputs, env: nat -> Outcome, t: nat, sources: seq<Prefix>,
                        r: Outcomes<Kernel>)
    requires Sane(k) && sources == Affected(prev.cfg, next.cfg) && r == Run(k, ReconcileCmds(prev, next), env, t)
    ensures GuardsConserved(k, r.Final(), sources)
  {
    hide Affected;
    hide ReconcileCmds;
    hide Copies;
    GuardConservation(k, prev, next, env, t, Prefix(V4, 0, 0), r);
    forall s
      ensures Copies(k, s) <= Copies(r.Final(), s) <= Copies(k, s) + One(s in sources)
    {
      GuardConservation(k, prev, next, env, t, s, r);
    }
  }
}
