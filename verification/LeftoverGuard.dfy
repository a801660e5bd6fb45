/** One input on which a successful Reconcile leaves a guard behind: from nothing to a single strict
    peer, with the deletion of its guard refused. */
module LeftoverGuard {
  import opened Lists
  import opened Network
  import opened Models
  import opened Kernel
  import opened Runs
  import opened IpRules
  import opened StrictChains
  import opened GatewayChains
  import opened Routes
  import opened Generators
  import opened Effects
  import opened FailClosed
  import opened Guards
  import opened Convergence
  import opened FaultFreeRuns

  const SOURCE := Prefix(V4, 0x0A00_0002, 32)
  const PEER := Peer("p", true, true, [Cidr(Address(V4, 0x0A00_0002), 32)], "", false, false, [], 0, [], 0, "", [])
  const NOTHING := Inputs(Config([], [], ZeroTier(false, false, false)), [], [], [], [])
  const ONE_PEER := Inputs(Config([PEER], [], ZeroTier(false, false, false)), [], [], [], [])
  const BARE: Kernel := Kernel(map[], map[], map[Forward(V4) := [], Forward(V6) := [], Postrouting := []])

  lemma OneSource()
    ensures Sources(PEER) == [SOURCE]
  {
    assert Networks(PEER.allowedIPs) == [SOURCE];
    assert [SOURCE][..0] == [];
    assert Distinct([SOURCE]) == [SOURCE];
  }

  lemma One<A, B>(f: A -> seq<B>, x: A)
    ensures FlatMap(f, [x]) == f(x)
  {
    assert [x][..0] == [];
  }

  lemma OneAffected()
    ensures Affected(NOTHING.cfg, ONE_PEER.cfg) == [SOURCE]
  {
    OneSource();
    One(StrictSourcesOf(), PEER);
    assert [SOURCE][..0] == [];
    assert Distinct([SOURCE]) == [SOURCE];
    assert StrictSources(ONE_PEER.cfg) == [SOURCE];
    assert StrictSources(NOTHING.cfg) == [];
    assert [] + [SOURCE] == [SOURCE];
  }

  lemma NothingIsValid()
    ensures Valid(NOTHING) && Holds(BARE, NOTHING, map[], map[]) && ForeignTo(map[], map[], NOTHING)
  {
  }

  lemma OnePeerIsValid()
    ensures Valid(ONE_PEER) && ForeignTo(map[], map[], ONE_PEER)
  {
    OneSource();
    var exits := ExitNodes(ONE_PEER.cfg.peers);
    assert ONE_PEER.cfg.peers == [PEER] && [PEER][..|[PEER]| - 1] == [] && !UsableExit(PEER);
    assert ExitNodes([]) == map[];
    assert exits == map[];
    One(PeerBlocks(exits), PEER);
    One(SourceRulesOf(PEER, exits), SOURCE);
    assert |PeerRules(ONE_PEER.cfg)| == 1;
    One(DevicePeerRules(GatewayInterfaces([])), PEER);
    One(LanPeerRules([]), PEER);
    One(LanDeviceRules([]), PEER);
  }

  lemma BareIsBuiltIn()
    ensures BARE.BuiltIns()
  {
    forall f: Family
      ensures Forward(f) in BARE.chains
    {
      assert f == V4 || f == V6;
    }
  }

  /** FORWARD held no guard, Reconcile reports success, and FORWARD holds one. */
  lemma SuccessLeavesGuard(env: nat -> Outcome)
    requires var release := 1 + |Middle(NOTHING, ONE_PEER)|;
             (forall i :: 0 <= i < release ==> env(i) == Done) && env(release) == Refused
    ensures var r := Run(BARE, ReconcileCmds(NOTHING, ONE_PEER), env, 0);
            BARE.BuiltIns() && r.ok && r.Final().BuiltIns() && Copies(BARE, SOURCE) == 0
                && Copies(r.Final(), SOURCE) == 1
  {
    OneAffected();
    NothingIsValid();
    OnePeerIsValid();
    BareIsBuiltIn();
    hide Valid;
    hide Holds;
    hide ForeignTo;
    hide Middle;
    hide Run;
    hide ReconcileCmds;
    RefusedDeletionLeavesGuard(BARE, NOTHING, ONE_PEER, map[], map[], env, 0, 1 + |Middle(NOTHING, ONE_PEER)|);
  }
}
