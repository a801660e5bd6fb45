/** The command lists of a transition and of the interface hooks, put together from the generators. */
module Generators {
  import opened Lists
  import opened Network
  import opened Models
  import opened Kernel
  import opened IpRules
  import opened StrictChains
  import opened GatewayChains
  import opened Routes

  /** Rules outside the peer block: LAN bypass, gateways, devices. */
  function OtherRules(inp: Inputs): seq<IpRule> {
    LocalRules(inp.cfg, inp.lan) + (GatewayRules(inp.cfg) + DeviceRules(inp.cfg))
  }

  function RoutesDown(inp: Inputs): seq<Cmd> {
    GatewayRouteCmds(Delete, inp.cfg) + ExitRouteCmds(Delete, inp.exitOrder) + PolicyRouteCmds(Delete, inp)
  }

  /** Step 2 of Reconcile: remove the previous state. */
  function Teardown(prev: Inputs): seq<Cmd> {
    (ZeroTierDown(prev) + DelRules(PeerRules(prev.cfg)))
    + (GATEWAY_DOWN + DelRules(OtherRules(prev)))
    + RoutesDown(prev)
  }

  function SharedRoutesUp(inp: Inputs): seq<Cmd> {
    ExitRouteCmds(Replace, inp.exitOrder) + GatewayRouteCmds(Replace, inp.cfg)
  }

  /** The part of step 4 after the gateway chains have been initialised. */
  function SetupRest(next: Inputs): seq<Cmd> {
    (GatewayAppends(next.cfg, next.lan) + ZeroTierUp(next))
    + (SetRules(OtherRules(next) + PeerRules(next.cfg)) + PolicyRouteCmds(Replace, next))
  }

  /** Step 4 of Reconcile: install the next state. */
  function Setup(next: Inputs): seq<Cmd> {
    SharedRoutesUp(next) + (GATEWAY_INIT + SetupRest(next))
  }

  /** The PostUp hooks written to wg0.conf. */
  function PostUp(inp: Inputs): seq<Cmd> {
    SharedRoutesUp(inp)
    + (GatewayUp(inp.cfg, inp.lan) + ZeroTierUp(inp))
    + (StrictUp(inp.cfg, inp.nets) + SetRules(OtherRules(inp) + PeerRules(inp.cfg)))
    + PolicyRouteCmds(Replace, inp)
  }

  /** The PostDown hooks. */
  function PostDown(inp: Inputs): seq<Cmd> {
    (ZeroTierDown(inp) + DelRules(OtherRules(inp) + PeerRules(inp.cfg)))
    + RoutesDown(inp)
    + StrictDown()
  }

  /** The PostUp list, appended generator by generator. */
  method GeneratePostUp(inp: Inputs) returns (cmds: seq<Cmd>)
    ensures cmds == PostUp(inp)
  {
    cmds := GenerateExitRoutes(Replace, inp.exitOrder);
    var gatewayRoutes := GenerateGatewayRoutes(Replace, inp.cfg);
    cmds := cmds + gatewayRoutes;
    ghost var shared := cmds;
    var chains := GenerateGatewayUp(inp.cfg, inp.lan);
    cmds := cmds + chains + ZeroTierUp(inp);
    var strict := GenerateStrictEgress(inp.cfg, inp.nets);
    cmds := cmds + (StrictInit(V4) + StrictInit(V6) + StrictAppends(strict));
    var local := GenerateLocalRules(inp.cfg, inp.lan);
    var gateway := GenerateGatewayRules(inp.cfg);
    var device := GenerateDeviceRules(inp.cfg);
    var peer := GeneratePeerRules(inp.cfg);
    cmds := cmds + SetRules((local + (gateway + device)) + peer);
    var policy := GeneratePolicyRoutes(Replace, inp);
    cmds := cmds + policy;
    Regrouped(shared, chains, ZeroTierUp(inp), StrictUp(inp.cfg, inp.nets),
        SetRules(OtherRules(inp) + PeerRules(inp.cfg)), policy);
  }

  lemma Regrouped(a: seq<Cmd>, b: seq<Cmd>, c: seq<Cmd>, d: seq<Cmd>, e: seq<Cmd>, f: seq<Cmd>)
    ensures a + b + c + d + e + f == a + (b + c) + (d + e) + f
  {
  }

  /** The PostDown list. */
  method GeneratePostDown(inp: Inputs) returns (cmds: seq<Cmd>)
    ensures cmds == PostDown(inp)
  {
    var local := GenerateLocalRules(inp.cfg, inp.lan);
    var gateway := GenerateGatewayRules(inp.cfg);
    var device := GenerateDeviceRules(inp.cfg);
    var peer := GeneratePeerRules(inp.cfg);
    cmds := ZeroTierDown(inp) + DelRules((local + (gateway + device)) + peer);
    var gatewayRoutes := GenerateGatewayRoutes(Delete, inp.cfg);
    var exitRoutes := GenerateExitRoutes(Delete, inp.exitOrder);
    var policyRoutes := GeneratePolicyRoutes(Delete, inp);
    cmds := cmds + (gatewayRoutes + exitRoutes + policyRoutes) + StrictDown();
  }
}
