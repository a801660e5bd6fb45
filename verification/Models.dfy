/** The configuration as the routing code reads it: peers, imported VPN gateways and ZeroTier. */
module Models {
  import opened Lists
  import opened Network

  /** "dest via gateway", parsed. */
  datatype PolicyRoute = PolicyRoute(dest: Prefix, gateway: Address)

  /** One LAN device behind a peer; an empty gatewayId means the host's own uplink. */
  datatype DeviceRule = DeviceRule(device: Address, gatewayId: string, enabled: bool)

  datatype Peer = Peer(
    id: string,
    enabled: bool,
    strict: bool,
    allowedIPs: seq<Cidr>,
    exitNodeId: string,
    isExitNode: bool,
    exitAllowAll: bool,
    exitRoutes: seq<Prefix>,
    tableId: nat,
    policyRoutes: seq<PolicyRoute>,
    policyTableId: nat,
    vpnGatewayId: string,
    devices: seq<DeviceRule>)

  /** An imported WireGuard client configuration used as an uplink. */
  datatype Gateway = Gateway(
    id: string,
    iface: string,
    enabled: bool,
    allowedIPs: seq<Prefix>,
    tableId: nat)

  datatype ZeroTier = ZeroTier(enabled: bool, disableMasquerade: bool, excludeAdvertised: bool)

  datatype Config = Config(peers: seq<Peer>, gateways: seq<Gateway>, zeroTier: ZeroTier)

  /** Everything one rendering of the routing state depends on: the configuration, the on-link
      networks, the prefixes that bypass the ZeroTier masquerade, the destinations that stay on
      the LAN, and the order in which the map of exit nodes happens to be iterated. */
  datatype Inputs = Inputs(
    cfg: Config,
    nets: seq<GatewayNet>,
    bypass: seq<Prefix>,
    lan: seq<Prefix>,
    exitOrder: seq<Peer>)

  function Networks(cidrs: seq<Cidr>): (r: seq<Prefix>)
    ensures |r| == |cidrs|
    ensures forall i :: 0 <= i < |cidrs| ==> r[i] == NetworkOf(cidrs[i].address, cidrs[i].length)
  {
    seq(|cidrs|, i requires 0 <= i < |cidrs| => NetworkOf(cidrs[i].address, cidrs[i].length))
  }

  /** The distinct source selectors a peer is authorized to use. */
  function Sources(p: Peer): seq<Prefix> {
    Distinct(Networks(p.allowedIPs))
  }

  /** An address is in some source of the peer exactly when AllowedIPs covers it. */
  lemma SourcesCoverAllowedIPs(p: Peer, a: Address)
    ensures NoDuplicates(Sources(p))
    ensures (exists s :: s in Sources(p) && Contains(s, a)) <==>
            exists c :: c in p.allowedIPs && Contains(NetworkOf(c.address, c.length), a)
  {
    var ns := Networks(p.allowedIPs);
    DistinctElements(ns);
    if c :| c in p.allowedIPs && Contains(NetworkOf(c.address, c.length), a) {
      var i :| 0 <= i < |p.allowedIPs| && p.allowedIPs[i] == c;
      assert ns[i] in ns;
    }
    if s :| s in Sources(p) && Contains(s, a) {
      var i :| 0 <= i < |ns| && ns[i] == s;
      assert p.allowedIPs[i] in p.allowedIPs;
    }
  }

  method PeerSources(p: Peer) returns (result: seq<Prefix>)
    ensures result == Sources(p)
    ensures NoDuplicates(result)
    ensures forall s :: s in result <==> s in Networks(p.allowedIPs)
  {
    result := CollectDistinct(Networks(p.allowedIPs));
  }

  /** Exit nodes traffic can be steered to, keyed by peer ID; a later duplicate ID wins. */
  function ExitNodes(peers: seq<Peer>): map<string, Peer> {
    if peers == [] then map[]
    else
      var p := peers[|peers| - 1];
      var rest := ExitNodes(peers[..|peers| - 1]);
      if UsableExit(p) then rest[p.id := p] else rest
  }

  predicate UsableExit(p: Peer) {
    p.isExitNode && p.enabled && p.tableId > 0
  }

  lemma {:induction false} ExitNodesSound(peers: seq<Peer>)
    ensures forall id :: id in ExitNodes(peers) ==>
              var p := ExitNodes(peers)[id]; p in peers && UsableExit(p) && p.id == id
  {
    if peers != [] {
      ExitNodesSound(peers[..|peers| - 1]);
      assert peers == peers[..|peers| - 1] + [peers[|peers| - 1]];
    }
  }

  /** The peer at i is the last enabled exit node with a table under this ID. */
  ghost predicate LastExit(peers: seq<Peer>, id: string, i: int) {
    && 0 <= i < |peers| && peers[i].id == id && peers[i].isExitNode && peers[i].enabled && peers[i].tableId > 0
    && forall j :: i < j < |peers| && peers[j].id == id ==>
         !(peers[j].isExitNode && peers[j].enabled && peers[j].tableId > 0)
  }

  /** The map holds exactly the enabled exit nodes that have a table, the last one of every ID. */
  lemma {:induction false} ExitNodesExact(peers: seq<Peer>, id: string)
    ensures id in ExitNodes(peers) <==>
              exists p :: p in peers && p.id == id && p.isExitNode && p.enabled && p.tableId > 0
    ensures id in ExitNodes(peers) ==> exists i :: LastExit(peers, id, i) && peers[i] == ExitNodes(peers)[id]
  {
    if peers != [] {
      var init, last := peers[..|peers| - 1], |peers| - 1;
      ExitNodesExact(init, id);
      assert peers == init + [peers[last]];
      if UsableExit(peers[last]) && peers[last].id == id {
        assert LastExit(peers, id, last);
      } else if id in ExitNodes(init) {
        var i :| LastExit(init, id, i) && init[i] == ExitNodes(init)[id];
        assert LastExit(peers, id, i);
      }
    }
  }

  /** The map of enabled exit nodes, filled in a loop. */
  method EnabledExitNodes(cfg: Config) returns (exits: map<string, Peer>)
    ensures exits == ExitNodes(cfg.peers)
  {
    exits := map[];
    for i := 0 to |cfg.peers|
      invariant exits == ExitNodes(cfg.peers[..i])
    {
      var p := cfg.peers[i];
      assert cfg.peers[..i + 1][..i] == cfg.peers[..i];
      if p.isExitNode && p.enabled && p.tableId > 0 {
        exits := exits[p.id := p];
      }
    }
    assert cfg.peers[..|cfg.peers|] == cfg.peers;
  }

  /** Gateways that have an interface, keyed by ID; a later duplicate ID wins. */
  function GatewayInterfaces(gateways: seq<Gateway>): map<string, Gateway> {
    if gateways == [] then map[]
    else
      var g := gateways[|gateways| - 1];
      var rest := GatewayInterfaces(gateways[..|gateways| - 1]);
      if g.iface == "" then rest else rest[g.id := g]
  }

  /** The gateway at i is the last one with an interface under this ID. */
  ghost predicate LastGateway(gateways: seq<Gateway>, id: string, i: int) {
    && 0 <= i < |gateways| && gateways[i].id == id && gateways[i].iface != ""
    && forall j :: i < j < |gateways| && gateways[j].id == id ==> gateways[j].iface == ""
  }

  /** The map holds exactly the gateways that have an interface, the last one of every ID. */
  lemma {:induction false} GatewayInterfacesExact(gateways: seq<Gateway>, id: string)
    ensures id in GatewayInterfaces(gateways) <==> exists g :: g in gateways && g.id == id && g.iface != ""
    ensures id in GatewayInterfaces(gateways) ==>
              exists i :: LastGateway(gateways, id, i) && gateways[i] == GatewayInterfaces(gateways)[id]
  {
    if gateways != [] {
      var init, last := gateways[..|gateways| - 1], |gateways| - 1;
      GatewayInterfacesExact(init, id);
      assert gateways == init + [gateways[last]];
      if gateways[last].iface != "" && gateways[last].id == id {
        assert LastGateway(gateways, id, last);
      } else if id in GatewayInterfaces(init) {
        var i :| LastGateway(init, id, i) && init[i] == GatewayInterfaces(init)[id];
        assert LastGateway(gateways, id, i);
      }
    }
  }

  /** order lists the values of the exit-node map, as some iteration over it would. */
  ghost predicate Enumerates(order: seq<Peer>, exits: map<string, Peer>) {
    forall p :: p in order <==> p in exits.Values
  }

  /** Routing table IDs of peers are unique, as ValidateConfig demands of every saved
      configuration: no two roles of any two peers share a non-zero table. */
  ghost predicate UniqueTables(peers: seq<Peer>) {
    && (forall i, j :: 0 <= i < |peers| && 0 <= j < |peers| && i != j ==>
          (peers[i].tableId != 0 ==> peers[i].tableId != peers[j].tableId)
          && (peers[i].policyTableId != 0 ==> peers[i].policyTableId != peers[j].policyTableId))
    && (forall i, j :: 0 <= i < |peers| && 0 <= j < |peers| ==>
          peers[i].tableId != 0 ==> peers[i].tableId != peers[j].policyTableId)
  }

  /** Gateways have tables of their own. */
  ghost predicate GatewayTablesApart(cfg: Config) {
    forall g, p :: g in cfg.gateways && p in cfg.peers && g.tableId != 0 ==>
        g.tableId != p.tableId && g.tableId != p.policyTableId
  }
}
