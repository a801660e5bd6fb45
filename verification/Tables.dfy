/** Routing table IDs: how exit nodes, policy routes and imported gateways get tables of their own,
    and that every edit of the configuration keeps them apart. */
module Tables {
  import opened Lists
  import opened Models

  const PEER_TABLE_BASE: nat := 100
  const GATEWAY_TABLE_BASE: nat := 20000

  /** Fewer peers than this keep every automatically assigned ID below the gateway range. */
  const PEER_LIMIT: nat := 9950

  // ---------------------------------------------------------------- the scan for a free ID

  /** The least number from next on that is not used. */
  ghost function FreeFrom(used: set<nat>, next: nat): (id: nat)
    ensures id >= next && id !in used
    ensures forall j :: next <= j < id ==> j in used
    ensures id <= next + |used|
    decreases |used|
  {
    if next !in used then next
    else
      var id := FreeFrom(used - {next}, next + 1);
      assert forall j :: next <= j < id ==> j in used by {
        forall j | next <= j < id
          ensures j in used
        {
          assert j == next || j in used - {next};
        }
      }
      id
  }

  lemma FreeIsUnique(used: set<nat>, next: nat, id: nat)
    requires id >= next && id !in used && forall j :: next <= j < id ==> j in used
    ensures id == FreeFrom(used, next)
  {
    var free := FreeFrom(used, next);
    assert id < free ==> id in used;
    assert free < id ==> free in used;
  }

  /** The scan itself: it stops because used has only finitely many members. */
  method Scan(used: set<nat>, next: nat) returns (id: nat)
    ensures id == FreeFrom(used, next)
  {
    id := next;
    while id in used
      invariant next <= id <= FreeFrom(used, next)
      invariant forall j :: next <= j < id ==> j in used
      decreases FreeFrom(used, next) - id
    {
      id := id + 1;
    }
    FreeIsUnique(used, next, id);
  }

  // ---------------------------------------------------------------- peer tables

  function TablesOf(p: Peer): set<nat> {
    {p.tableId, p.policyTableId} - {0}
  }

  function PeerTables(peers: seq<Peer>): set<nat> {
    set p, t | p in peers && t in TablesOf(p) :: t
  }

  lemma RoleCount(p: Peer)
    ensures |TablesOf(p)| <= (if p.tableId == 0 then 0 else 1) + (if p.policyTableId == 0 then 0 else 1)
  {
    var both := {p.tableId, p.policyTableId};
    if p.tableId == 0 {
      assert TablesOf(p) == {p.policyTableId} - {0};
    } else if p.policyTableId == 0 {
      assert TablesOf(p) == {p.tableId};
    } else {
      assert TablesOf(p) == {p.tableId} + {p.policyTableId};
    }
  }

  lemma TablesSnoc(peers: seq<Peer>, p: Peer)
    ensures PeerTables(peers + [p]) == PeerTables(peers) + TablesOf(p)
    ensures |PeerTables(peers + [p])| <= |PeerTables(peers)| + |TablesOf(p)|
  {
    var a, b := PeerTables(peers), TablesOf(p);
    assert PeerTables(peers + [p]) == a + b;
    assert a + b == a + (b - a);
    SubsetSize(b - a, b);
  }

  lemma {:induction false} AtMostTwoEach(peers: seq<Peer>)
    ensures |PeerTables(peers)| <= 2 * |peers|
  {
    if peers == [] {
      assert PeerTables(peers) == {};
    } else {
      var init, last := peers[..|peers| - 1], peers[|peers| - 1];
      assert peers == init + [last];
      AtMostTwoEach(init);
      TablesSnoc(init, last);
      RoleCount(last);
    }
  }

  lemma {:induction false} SubsetSize(a: set<nat>, b: set<nat>)
    requires a <= b
    ensures |a| <= |b|
  {
    if x :| x in a {
      SubsetSize(a - {x}, b - {x});
    }
  }

  /** The map of used IDs, filled in a loop over the peers. */
  method CollectPeerTables(peers: seq<Peer>) returns (used: set<nat>)
    ensures used == PeerTables(peers)
  {
    used := {};
    for i := 0 to |peers|
      invariant used == PeerTables(peers[..i])
    {
      assert peers[..i + 1] == peers[..i] + [peers[i]];
      if peers[i].tableId > 0 {
        used := used + {peers[i].tableId};
      }
      if peers[i].policyTableId > 0 {
        used := used + {peers[i].policyTableId};
      }
      assert used == PeerTables(peers[..i]) + TablesOf(peers[i]);
    }
    assert peers[..|peers|] == peers;
  }

  ghost function NextTable(peers: seq<Peer>): nat {
    FreeFrom(PeerTables(peers), PEER_TABLE_BASE)
  }

  /** The least unused ID from 100 on, found after at most as many steps as there are used IDs. */
  method AssignRoutingTableID(peers: seq<Peer>) returns (id: nat)
    ensures id >= PEER_TABLE_BASE && id !in PeerTables(peers)
    ensures forall j :: PEER_TABLE_BASE <= j < id ==> j in PeerTables(peers)
    ensures id <= PEER_TABLE_BASE + |PeerTables(peers)| <= PEER_TABLE_BASE + 2 * |peers|
    ensures id == NextTable(peers)
  {
    AtMostTwoEach(peers);
    var used := CollectPeerTables(peers);
    id := Scan(used, PEER_TABLE_BASE);
  }

  /** One peer's roles, in order: each table is an error if it was seen before. */
  method CheckRoles(p: Peer, seen: set<nat>) returns (seen': set<nat>, ok: bool)
    ensures seen' == seen + TablesOf(p)
    ensures ok <==> TablesOf(p) !! seen && RolesApart(p)
  {
    assert p.tableId == 0 || p.tableId in TablesOf(p);
    assert p.policyTableId == 0 || p.policyTableId in TablesOf(p);
    seen', ok := seen, true;
    if p.tableId != 0 {
      if p.tableId in seen' {
        ok := false;
      }
      seen' := seen' + {p.tableId};
    }
    if p.policyTableId != 0 {
      if p.policyTableId in seen' {
        ok := false;
      }
      seen' := seen' + {p.policyTableId};
    }
  }

  /** The uniqueness check of a saved configuration: roles are visited in order and the first
      repeated table is an error. It accepts exactly the lists with unique tables. */
  method TablesUnique(peers: seq<Peer>) returns (ok: bool)
    ensures ok <==> UniqueTables(peers)
  {
    hide UniqueTables;
    hide PeerTables;
    hide TablesOf;
    hide RolesApart;
    var seen: set<nat> := {};
    ok := true;
    UniqueMeansApart(peers[..0]);
    NoTables();
    for i := 0 to |peers|
      invariant seen == PeerTables(peers[..i])
      invariant ok <==> UniqueTables(peers[..i])
    {
      assert peers[..i + 1] == peers[..i] + [peers[i]];
      ghost var init, p := peers[..i], peers[i];
      UniqueSnoc(init, p);
      TablesSnoc(init, p);
      var distinct: bool;
      seen, distinct := CheckRoles(peers[i], seen);
      ok := ok && distinct;
    }
    assert peers[..|peers|] == peers;
  }

  lemma NoTables()
    ensures PeerTables([]) == {}
  {
  }

  /** p and q share no table. */
  ghost predicate Apart(p: Peer, q: Peer) {
    TablesOf(p) !! TablesOf(q)
  }

  ghost predicate RolesApart(p: Peer) {
    p.tableId != 0 ==> p.tableId != p.policyTableId
  }

  lemma UniqueMeansApart(peers: seq<Peer>)
    ensures UniqueTables(peers) <==>
              && (forall i :: 0 <= i < |peers| ==> RolesApart(peers[i]))
              && (forall i, j :: 0 <= i < |peers| && 0 <= j < |peers| && i != j ==> Apart(peers[i], peers[j]))
  {
    if (forall i :: 0 <= i < |peers| ==> RolesApart(peers[i]))
       && (forall i, j :: 0 <= i < |peers| && 0 <= j < |peers| && i != j ==> Apart(peers[i], peers[j])) {
      forall i, j | 0 <= i < |peers| && 0 <= j < |peers|
        ensures i != j ==> (peers[i].tableId != 0 ==> peers[i].tableId != peers[j].tableId)
                           && (peers[i].policyTableId != 0 ==> peers[i].policyTableId != peers[j].policyTableId)
        ensures peers[i].tableId != 0 ==> peers[i].tableId != peers[j].policyTableId
      {
        assert RolesApart(peers[i]);
        if i != j {
          assert Apart(peers[i], peers[j]);
          NotShared(peers[i], peers[j]);
        }
      }
    }
  }

  lemma NotShared(p: Peer, q: Peer)
    requires Apart(p, q)
    ensures p.tableId != 0 ==> p.tableId != q.tableId && p.tableId != q.policyTableId
    ensures p.policyTableId != 0 ==> p.policyTableId != q.policyTableId
  {
    assert p.tableId == 0 || p.tableId in TablesOf(p);
    assert p.policyTableId == 0 || p.policyTableId in TablesOf(p);
  }

  lemma UniqueSnoc(peers: seq<Peer>, p: Peer)
    ensures UniqueTables(peers + [p]) <==> UniqueTables(peers) && TablesOf(p) !! PeerTables(peers) && RolesApart(p)
  {
    hide UniqueTables;
    hide RolesApart;
    var all := peers + [p];
    UniqueMeansApart(peers);
    UniqueMeansApart(all);
    assert all[|peers|] == p && forall i :: 0 <= i < |peers| ==> all[i] == peers[i];
    assert TablesOf(p) !! PeerTables(peers) <==> forall i :: 0 <= i < |peers| ==> Apart(peers[i], p) by {
      forall t | t in TablesOf(p) && t in PeerTables(peers)
        ensures exists i :: 0 <= i < |peers| && !Apart(peers[i], p)
      {
        var q :| q in peers && t in TablesOf(q);
        var i :| 0 <= i < |peers| && peers[i] == q;
        assert !Apart(peers[i], p);
      }
      forall i | 0 <= i < |peers|
        ensures TablesOf(peers[i]) <= PeerTables(peers)
      {
        assert peers[i] in peers;
      }
    }
  }

  // ---------------------------------------------------------------- gateway tables

  /** What the allocation makes of the gateways: a zero becomes the next free ID. */
  ghost function Filled(gateways: seq<Gateway>, used: set<nat>, next: nat): (r: seq<Gateway>)
    ensures |r| == |gateways|
  {
    if gateways == [] then []
    else if gateways[0].tableId != 0 then [gateways[0]] + Filled(gateways[1..], used, next)
    else
      var id := FreeFrom(used, next);
      [gateways[0].(tableId := id)] + Filled(gateways[1..], used + {id}, id + 1)
  }

  function GatewayTables(gateways: seq<Gateway>): set<nat> {
    (set g | g in gateways :: g.tableId) - {0}
  }

  ghost function UsedTables(cfg: Config): set<nat> {
    PeerTables(cfg.peers) + GatewayTables(cfg.gateways)
  }

  ghost function EnsuredGateways(cfg: Config): seq<Gateway> {
    Filled(cfg.gateways, UsedTables(cfg), GATEWAY_TABLE_BASE)
  }

  ghost function Ensured(cfg: Config): Config {
    cfg.(gateways := EnsuredGateways(cfg))
  }

  method CollectGatewayTables(gateways: seq<Gateway>) returns (used: set<nat>)
    ensures used == GatewayTables(gateways)
  {
    used := {};
    for i := 0 to |gateways|
      invariant used == GatewayTables(gateways[..i])
    {
      assert gateways[..i + 1] == gateways[..i] + [gateways[i]];
      if gateways[i].tableId > 0 {
        used := used + {gateways[i].tableId};
      }
    }
    assert gateways[..|gateways|] == gateways;
  }

  lemma FillStep(gateways: seq<Gateway>, target: seq<Gateway>, i: nat, used: set<nat>, next: nat)
    requires i < |gateways| == |target| && Filled(gateways[i..], used, next) == target[i..]
    ensures if gateways[i].tableId != 0
            then target[i] == gateways[i] && Filled(gateways[i + 1..], used, next) == target[i + 1..]
            else var id := FreeFrom(used, next);
                 target[i] == gateways[i].(tableId := id) && Filled(gateways[i + 1..], used + {id}, id + 1) ==
                     target[i + 1..]
  {
    hide FreeFrom;
    assert gateways[i..][0] == gateways[i] && gateways[i..][1..] == gateways[i + 1..];
    assert target[i..][0] == target[i] && target[i..][1..] == target[i + 1..];
  }

  /** The allocation loop: zeros are replaced in place, in order; everything else stays. */
  method FillZeros(gateways: array<Gateway>, used0: set<nat>) returns (changed: bool)
    modifies gateways
    ensures gateways[..] == Filled(old(gateways[..]), used0, GATEWAY_TABLE_BASE)
    ensures changed <==> exists i :: 0 <= i < gateways.Length && old(gateways[i].tableId) == 0
  {
    hide Filled;
    hide FreeFrom;
    var used, next := used0, GATEWAY_TABLE_BASE;
    changed := false;
    ghost var before := gateways[..];
    ghost var target := Filled(before, used0, GATEWAY_TABLE_BASE);
    assert before[0..] == before && target[0..] == target;
    for i := 0 to gateways.Length
      invariant forall j :: 0 <= j < i ==> gateways[j] == target[j]
      invariant forall j :: i <= j < gateways.Length ==> gateways[j] == before[j]
      invariant Filled(before[i..], used, next) == target[i..]
      invariant changed <==> exists j :: 0 <= j < i && before[j].tableId == 0
    {
      FillStep(before, target, i, used, next);
      if gateways[i].tableId == 0 {
        next := Scan(used, next);
        gateways[i] := gateways[i].(tableId := next);
        used := used + {next};
        changed := true;
        next := next + 1;
      }
    }
  }

  method EnsureGatewayTables(gateways: array<Gateway>, peers: seq<Peer>) returns (changed: bool)
    modifies gateways
    ensures gateways[..] == Filled(old(gateways[..]), PeerTables(peers) + GatewayTables(old(gateways[..])),
            GATEWAY_TABLE_BASE)
    ensures changed <==> exists i :: 0 <= i < gateways.Length && old(gateways[i].tableId) == 0
  {
    var used := CollectPeerTables(peers);
    var own := CollectGatewayTables(gateways[..]);
    changed := FillZeros(gateways, used + own);
  }

  /** The gateway manager's own reservation, which does not look at the peers. */
  method ReserveGatewayTables(gateways: array<Gateway>) returns (changed: bool)
    modifies gateways
    ensures gateways[..] == Filled(old(gateways[..]), GatewayTables(old(gateways[..])), GATEWAY_TABLE_BASE)
    ensures changed <==> exists i :: 0 <= i < gateways.Length && old(gateways[i].tableId) == 0
  {
    var own := CollectGatewayTables(gateways[..]);
    changed := FillZeros(gateways, own);
  }

  /** Only zeros change, and only in their table; the new IDs start at next, were not used before,
      and increase. */
  ghost predicate FilledFresh(gateways: seq<Gateway>, r: seq<Gateway>, used: set<nat>, next: nat) {
    && |r| == |gateways|
    && (forall i :: 0 <= i < |r| ==> r[i] == gateways[i].(tableId := r[i].tableId))
    && (forall i :: 0 <= i < |r| && gateways[i].tableId != 0 ==> r[i].tableId == gateways[i].tableId)
    && (forall i :: 0 <= i < |r| && gateways[i].tableId == 0 ==> r[i].tableId >= next && r[i].tableId !in used)
    && (forall i, j :: 0 <= i < j < |r| && gateways[i].tableId == 0 && gateways[j].tableId == 0 ==>
       r[i].tableId < r[j].tableId)
  }

  lemma FreshCons(g: Gateway, g': Gateway, gateways: seq<Gateway>, r: seq<Gateway>, used: set<nat>, used': set<nat>,
                  next: nat, next': nat)
    requires FilledFresh(gateways, r, used', next') && used <= used' && next <= next'
    requires g' == g.(tableId := g'.tableId)
    requires if g.tableId != 0 then g' == g else g'.tableId !in used && next <= g'.tableId < next'
    ensures FilledFresh([g] + gateways, [g'] + r, used, next)
  {
    var gs, rs := [g] + gateways, [g'] + r;
    forall i | 0 <= i < |rs|
      ensures i > 0 ==> gs[i] == gateways[i - 1] && rs[i] == r[i - 1]
    {
    }
    assert forall i :: 0 <= i < |rs| && gs[i].tableId == 0 ==> rs[i].tableId >= next && rs[i].tableId !in used;
  }

  lemma {:induction false} FillingIsFresh(gateways: seq<Gateway>, used: set<nat>, next: nat)
    ensures FilledFresh(gateways, Filled(gateways, used, next), used, next)
    decreases |gateways|
  {
    hide FilledFresh;
    if gateways == [] {
      FillingNothing(used, next);
    } else {
      var g, rest := gateways[0], gateways[1..];
      assert gateways == [g] + rest;
      if g.tableId != 0 {
        FillingIsFresh(rest, used, next);
        FreshCons(g, g, rest, Filled(rest, used, next), used, used, next, next);
      } else {
        var id := FreeFrom(used, next);
        FillingIsFresh(rest, used + {id}, id + 1);
        FreshCons(g, g.(tableId := id), rest, Filled(rest, used + {id}, id + 1), used, used + {id}, next, id + 1);
      }
    }
  }

  lemma FillingNothing(used: set<nat>, next: nat)
    ensures FilledFresh([], Filled([], used, next), used, next)
  {
  }

  lemma {:induction false} NothingToFill(gateways: seq<Gateway>, used: set<nat>, next: nat)
    requires forall g :: g in gateways ==> g.tableId != 0
    ensures Filled(gateways, used, next) == gateways
    decreases |gateways|
  {
    if gateways != [] {
      NothingToFill(gateways[1..], used, next);
    }
  }

  /** The allocation is idempotent, and the manager's reservation changes nothing in a
      configuration the Store has been over. */
  lemma EnsuringOnceIsEnough(cfg: Config)
    ensures Ensured(Ensured(cfg)) == Ensured(cfg)
    ensures var gs := Ensured(cfg).gateways; Filled(gs, GatewayTables(gs), GATEWAY_TABLE_BASE) == gs
    ensures cfg.gateways == EnsuredGateways(cfg) <==> forall g :: g in cfg.gateways ==> g.tableId != 0
  {
    FillingIsFresh(cfg.gateways, UsedTables(cfg), GATEWAY_TABLE_BASE);
    var gs := EnsuredGateways(cfg);
    assert forall i :: 0 <= i < |gs| ==> gs[i].tableId != 0;
    NothingToFill(gs, UsedTables(Ensured(cfg)), GATEWAY_TABLE_BASE);
    NothingToFill(gs, GatewayTables(gs), GATEWAY_TABLE_BASE);
    if cfg.gateways == gs {
      forall g | g in cfg.gateways
        ensures g.tableId != 0
      {
        var i :| 0 <= i < |gs| && gs[i] == g;
      }
    } else if forall g :: g in cfg.gateways ==> g.tableId != 0 {
      NothingToFill(cfg.gateways, UsedTables(cfg), GATEWAY_TABLE_BASE);
    }
  }

  // ---------------------------------------------------------------- edits of the peer list

  ghost function WithTables(peer: Peer, existing: seq<Peer>): Peer {
    var p := if peer.isExitNode then peer.(tableId := NextTable(existing)) else peer;
    if p.policyRoutes != [] then p.(policyTableId := NextTable(existing + [p])) else p
  }

  lemma MoreTables(existing: seq<Peer>, p: Peer)
    ensures PeerTables(existing + [p]) == PeerTables(existing) + TablesOf(p)
  {
  }

  /** A new peer gets its exit table first, and its policy table with the exit table reserved. */
  method AssignNewPeerTables(peer: Peer, existing: seq<Peer>) returns (p: Peer)
    ensures p == WithTables(peer, existing)
    ensures p == peer.(tableId := p.tableId, policyTableId := p.policyTableId)
    ensures !peer.isExitNode ==> p.tableId == peer.tableId
    ensures peer.policyRoutes == [] ==> p.policyTableId == peer.policyTableId
    ensures peer.isExitNode ==> p.tableId >= PEER_TABLE_BASE && p.tableId !in PeerTables(existing)
    ensures peer.policyRoutes != [] ==>
              p.policyTableId >= PEER_TABLE_BASE && p.policyTableId !in PeerTables(existing)
                  && p.policyTableId != p.tableId
  {
    p := peer;
    if p.isExitNode {
      var id := AssignRoutingTableID(existing);
      p := p.(tableId := id);
    }
    if p.policyRoutes != [] {
      MoreTables(existing, p);
      var id := AssignRoutingTableID(existing + [p]);
      p := p.(policyTableId := id);
    }
  }

  /** The edited peer with the submitted settings; ID, tables and devices are not part of the form. */
  function Submitted(current: Peer, form: Peer): Peer {
    form.(id := current.id, tableId := current.tableId, policyTableId := current.policyTableId,
        devices := current.devices,
          exitNodeId := if form.isExitNode then "" else form.exitNodeId)
  }

  function Cleared(peers: seq<Peer>, id: string): (r: seq<Peer>)
    ensures |r| == |peers|
  {
    seq(|peers|, i requires 0 <= i < |peers| =>
      if peers[i].exitNodeId == id then peers[i].(exitNodeId := "") else peers[i])
  }

  method CascadeClearExitNode(peers: array<Peer>, id: string)
    modifies peers
    ensures peers[..] == Cleared(old(peers[..]), id)
    ensures forall i :: 0 <= i < peers.Length ==>
              && peers[i] == old(peers[i]).(exitNodeId := peers[i].exitNodeId)
              && peers[i].exitNodeId == if old(peers[i].exitNodeId) == id then "" else old(peers[i].exitNodeId)
    ensures id != "" ==> forall i :: 0 <= i < peers.Length ==> peers[i].exitNodeId != id
  {
    for i := 0 to peers.Length
      invariant forall j :: 0 <= j < i ==> peers[j] == Cleared(old(peers[..]), id)[j]
      invariant forall j :: i <= j < peers.Length ==> peers[j] == old(peers[j])
    {
      if peers[i].exitNodeId == id {
        peers[i] := peers[i].(exitNodeId := "");
      }
    }
  }

  ghost function ExitTransition(peers: seq<Peer>, i: nat): seq<Peer>
    requires i < |peers|
  {
    var p := peers[i];
    if !p.isExitNode then peers[i := p.(tableId := 0)]
    else if p.tableId == 0 then peers[i := p.(tableId := NextTable(peers))]
    else peers
  }

  ghost function PolicyTransition(peers: seq<Peer>, i: nat): seq<Peer>
    requires i < |peers|
  {
    var p := peers[i];
    if p.policyRoutes == [] then peers[i := p.(policyTableId := 0)]
    else if p.policyTableId == 0 then peers[i := p.(policyTableId := NextTable(peers))]
    else peers
  }

  ghost function Updated(peers: seq<Peer>, i: nat, form: Peer): (r: seq<Peer>)
    requires i < |peers|
    ensures |r| == |peers|
  {
    var edited := PolicyTransition(ExitTransition(peers[i := Submitted(peers[i], form)], i), i);
    if peers[i].isExitNode && !form.isExitNode then Cleared(edited, peers[i].id) else edited
  }

  /** The edit, field by field in the peer list itself: each assignment sees the ones before it. */
  method UpdatePeer(peers: array<Peer>, i: nat, form: Peer)
    requires i < peers.Length
    modifies peers
    ensures peers[..] == Updated(old(peers[..]), i, form)
  {
    var wasExitNode, id := peers[i].isExitNode, peers[i].id;
    peers[i] := Submitted(peers[i], form);
    assert peers[..] == old(peers[..])[i := Submitted(old(peers[i]), form)];
    if form.isExitNode && peers[i].tableId == 0 {
      var table := AssignRoutingTableID(peers[..]);
      peers[i] := peers[i].(tableId := table);
    }
    if !form.isExitNode {
      peers[i] := peers[i].(tableId := 0);
    }
    assert peers[..] == ExitTransition(old(peers[..])[i := Submitted(old(peers[i]), form)], i);
    if form.policyRoutes != [] && peers[i].policyTableId == 0 {
      var table := AssignRoutingTableID(peers[..]);
      peers[i] := peers[i].(policyTableId := table);
    }
    if form.policyRoutes == [] {
      peers[i] := peers[i].(policyTableId := 0);
    }
    assert peers[..] == PolicyTransition(ExitTransition(old(peers[..])[i := Submitted(old(peers[i]), form)], i), i);
    if wasExitNode && !form.isExitNode {
      CascadeClearExitNode(peers, id);
    }
  }

  /** What an edit leaves: the peer itself has the settings of the form and keeps its ID, its devices and
      the tables it had and still needs; an exit node uses no exit node. Of every other peer nothing
      changes but a reference to a peer that is no exit node any more, which is dropped; no reference to
      such a peer remains. */
  lemma EditExact(peers: seq<Peer>, i: nat, form: Peer)
    requires i < |peers|
    ensures var r, p := Updated(peers, i, form), Updated(peers, i, form)[i];
            var dropped := peers[i].isExitNode && !form.isExitNode;
            && p == form.(id := peers[i].id, devices := peers[i].devices, exitNodeId := p.exitNodeId,
                          tableId := p.tableId, policyTableId := p.policyTableId)
            && p.exitNodeId == (if form.isExitNode || (dropped && form.exitNodeId == peers[i].id) then ""
                                else form.exitNodeId)
            && (if !form.isExitNode then p.tableId == 0
                else if peers[i].tableId != 0 then p.tableId == peers[i].tableId
                else p.tableId >= PEER_TABLE_BASE)
            && (if form.policyRoutes == [] then p.policyTableId == 0
                else if peers[i].policyTableId != 0 then p.policyTableId == peers[i].policyTableId
                else p.policyTableId >= PEER_TABLE_BASE)
            && (forall j :: 0 <= j < |peers| && j != i ==>
                  r[j] == if dropped && peers[j].exitNodeId == peers[i].id then peers[j].(exitNodeId := "")
                      else peers[j])
            && (dropped && peers[i].id != "" ==> forall j :: 0 <= j < |peers| ==> r[j].exitNodeId != peers[i].id)
  {
    hide PeerTables;
  }

  // ---------------------------------------------------------------- every edit keeps tables apart

  /** One edit of the configuration through the Store, which ends by filling in gateway tables. */
  datatype Edit =
    | Create(form: Peer)
    | Update(i: nat, form: Peer)
    | Delete(i: nat)
    | Import(gateway: Gateway)

  ghost function Deleted(peers: seq<Peer>, i: nat): seq<Peer>
    requires i < |peers|
  {
    var rest := if peers[i].isExitNode then Cleared(peers, peers[i].id) else peers;
    rest[..i] + rest[i + 1..]
  }

  ghost function Edited(cfg: Config, e: Edit): Config {
    match e
    case Create(form) => cfg.(peers := cfg.peers + [WithTables(form.(tableId := 0, policyTableId := 0), cfg.peers)])
    case Update(i, form) => if i < |cfg.peers| then cfg.(peers := Updated(cfg.peers, i, form)) else cfg
    case Delete(i) => if i < |cfg.peers| then cfg.(peers := Deleted(cfg.peers, i)) else cfg
    case Import(g) => cfg.(gateways := cfg.gateways + [g.(tableId := 0)])
  }

  /** Deleting a peer leaves the others in their order and as they were, but for references to it if it was
      an exit node. */
  lemma DeleteExact(peers: seq<Peer>, i: nat)
    requires i < |peers|
    ensures var r := Deleted(peers, i);
            && |r| == |peers| - 1
            && forall j :: 0 <= j < |r| ==>
                 var p := peers[if j < i then j else j + 1];
                 r[j] == if peers[i].isExitNode && p.exitNodeId == peers[i].id then p.(exitNodeId := "") else p
  {
  }

  /** Every role that needs a table has one, and all IDs lie in the peers' range. */
  ghost predicate Served(p: Peer) {
    && (p.isExitNode ==> p.tableId != 0) && (p.policyRoutes != [] ==> p.policyTableId != 0)
    && p.tableId < GATEWAY_TABLE_BASE && p.policyTableId < GATEWAY_TABLE_BASE
  }

  ghost predicate PeersApart(peers: seq<Peer>) {
    UniqueTables(peers) && |peers| <= PEER_LIMIT && forall p :: p in peers ==> Served(p)
  }

  ghost predicate GatewaysApart(gateways: seq<Gateway>) {
    && (forall i :: 0 <= i < |gateways| ==> gateways[i].tableId >= GATEWAY_TABLE_BASE)
    && (forall i, j :: 0 <= i < j < |gateways| ==> gateways[i].tableId != gateways[j].tableId)
  }

  ghost predicate TablesApart(cfg: Config) {
    PeersApart(cfg.peers) && GatewaysApart(cfg.gateways)
  }

  /** A peer may get tables nobody uses, or give its own up. */
  lemma ReplacingKeepsUnique(peers: seq<Peer>, i: nat, p: Peer)
    requires UniqueTables(peers) && i < |peers| && RolesApart(p)
    requires forall t :: t in TablesOf(p) ==> t in TablesOf(peers[i]) || t !in PeerTables(peers)
    ensures UniqueTables(peers[i := p])
  {
    hide UniqueTables;
    hide RolesApart;
    var all := peers[i := p];
    UniqueMeansApart(peers);
    UniqueMeansApart(all);
    forall j | 0 <= j < |all| && j != i
      ensures Apart(all[j], p) && Apart(p, all[j])
    {
      assert all[j] == peers[j] && peers[j] in peers && Apart(peers[i], peers[j]);
      assert TablesOf(peers[j]) <= PeerTables(peers);
    }
    assert all[i] == p && forall j :: 0 <= j < |all| && j != i ==> all[j] == peers[j];
  }

  /** One vacant role leaves room for its table below the gateway range. */
  lemma {:induction false} VacantRole(peers: seq<Peer>, i: nat)
    requires i < |peers| && (peers[i].tableId == 0 || peers[i].policyTableId == 0)
    ensures |PeerTables(peers)| <= 2 * |peers| - 1
  {
    var init, last := peers[..|peers| - 1], peers[|peers| - 1];
    hide PeerTables;
    hide TablesOf;
    assert peers == init + [last];
    TablesSnoc(init, last);
    RoleCount(last);
    if i < |init| {
      VacantRole(init, i);
    } else {
      AtMostTwoEach(init);
    }
  }

  /** In the middle of an update the edited peer may be short of a table; the others are served. */
  ghost predicate OthersServed(peers: seq<Peer>, i: nat) {
    forall j :: 0 <= j < |peers| && j != i ==> Served(peers[j])
  }

  lemma UpdateKeeps(peers: seq<Peer>, i: nat, form: Peer)
    requires PeersApart(peers) && i < |peers|
    ensures PeersApart(Updated(peers, i, form))
  {
    hide UniqueTables;
    hide FreeFrom;
    hide PeerTables;
    var s := peers[i := Submitted(peers[i], form)];
    SubmittedKeeps(peers, i, form);
    var x := ExitTransition(s, i);
    var y := PolicyTransition(x, i);
    ExitKeeps(s, i);
    PolicyKeeps(x, i);
    if peers[i].isExitNode && !form.isExitNode {
      ClearingKeeps(y, peers[i].id);
    }
  }

  ghost predicate InRange(p: Peer) {
    p.tableId < GATEWAY_TABLE_BASE && p.policyTableId < GATEWAY_TABLE_BASE
  }

  lemma SubmittedKeeps(peers: seq<Peer>, i: nat, form: Peer)
    requires PeersApart(peers) && i < |peers|
    ensures var s := peers[i := Submitted(peers[i], form)];
            UniqueTables(s) && OthersServed(s, i) && InRange(s[i])
  {
    var s := peers[i := Submitted(peers[i], form)];
    assert peers[i] in peers && Served(peers[i]);
    forall j | 0 <= j < |s| && j != i
      ensures Served(s[j])
    {
      assert peers[j] in peers;
    }
    UniqueMeansApart(peers);
    assert RolesApart(peers[i]);
    ReplacingKeepsUnique(peers, i, Submitted(peers[i], form));
  }

  lemma ExitKeeps(peers: seq<Peer>, i: nat)
    requires UniqueTables(peers) && i < |peers| <= PEER_LIMIT && OthersServed(peers, i) && InRange(peers[i])
    ensures var r := ExitTransition(peers, i);
            && |r| == |peers| && UniqueTables(r) && OthersServed(r, i) && InRange(r[i])
            && (r[i].isExitNode ==> r[i].tableId != 0)
  {
    var p := peers[i];
    if !p.isExitNode {
      ReplacingKeepsUnique(peers, i, p.(tableId := 0));
    } else if p.tableId == 0 {
      VacantRole(peers, i);
      assert p.policyTableId == 0
          || (p.policyTableId in TablesOf(p) && p in peers && p.policyTableId in PeerTables(peers));
      ReplacingKeepsUnique(peers, i, p.(tableId := NextTable(peers)));
    }
  }

  lemma PolicyKeeps(peers: seq<Peer>, i: nat)
    requires UniqueTables(peers) && i < |peers| <= PEER_LIMIT && OthersServed(peers, i) && InRange(peers[i])
    requires peers[i].isExitNode ==> peers[i].tableId != 0
    ensures PeersApart(PolicyTransition(peers, i))
  {
    var p := peers[i];
    if p.policyRoutes == [] {
      ReplacingKeepsUnique(peers, i, p.(policyTableId := 0));
    } else if p.policyTableId == 0 {
      VacantRole(peers, i);
      assert p.tableId == 0 || (p.tableId in TablesOf(p) && p in peers && p.tableId in PeerTables(peers));
      ReplacingKeepsUnique(peers, i, p.(policyTableId := NextTable(peers)));
    }
  }

  lemma ClearingKeeps(peers: seq<Peer>, id: string)
    requires PeersApart(peers)
    ensures PeersApart(Cleared(peers, id))
    ensures forall q :: q in Cleared(peers, id) ==> q.exitNodeId != id || id == ""
  {
    var r := Cleared(peers, id);
    forall j | 0 <= j < |r|
      ensures Served(r[j]) && TablesOf(r[j]) == TablesOf(peers[j])
    {
      assert peers[j] in peers;
    }
    UniqueMeansApart(peers);
    UniqueMeansApart(r);
  }

  lemma DeletingKeeps(peers: seq<Peer>, i: nat)
    requires PeersApart(peers) && i < |peers|
    ensures PeersApart(peers[..i] + peers[i + 1..])
  {
    var r := peers[..i] + peers[i + 1..];
    UniqueMeansApart(peers);
    UniqueMeansApart(r);
    forall j | 0 <= j < |r|
      ensures r[j] == peers[if j < i then j else j + 1]
    {
    }
  }

  /** Taking the next table in a vacant role: the ID is new to everybody and in range. */
  lemma NextTableIsNew(peers: seq<Peer>, p: Peer)
    requires |peers| < PEER_LIMIT && (p.tableId == 0 || p.policyTableId == 0)
    ensures var t := NextTable(peers + [p]);
            && 0 < t < GATEWAY_TABLE_BASE && t !in PeerTables(peers) && t !in TablesOf(p)
  {
    hide FreeFrom;
    VacantRole(peers + [p], |peers|);
    TablesSnoc(peers, p);
  }

  lemma CreatingKeeps(peers: seq<Peer>, form: Peer)
    requires PeersApart(peers) && |peers| < PEER_LIMIT && form.tableId == 0 && form.policyTableId == 0
    ensures PeersApart(peers + [WithTables(form, peers)])
  {
    hide UniqueTables;
    hide FreeFrom;
    hide PeerTables;
    var p := if form.isExitNode then form.(tableId := NextTable(peers)) else form;
    var q := WithTables(form, peers);
    AtMostTwoEach(peers);
    NextTableIsNew(peers, p);
    UniqueSnoc(peers, q);
    forall x | x in peers + [q]
      ensures Served(x)
    {
      assert x in peers || x == q;
    }
  }

  lemma EnsuringKeeps(cfg: Config)
    requires (forall g :: g in cfg.gateways ==> g.tableId == 0 || g.tableId >= GATEWAY_TABLE_BASE)
    requires forall i, j :: 0 <= i < j < |cfg.gateways| && cfg.gateways[i].tableId != 0 ==>
               cfg.gateways[i].tableId != cfg.gateways[j].tableId
    ensures GatewaysApart(Ensured(cfg).gateways)
  {
    var gs, r := cfg.gateways, EnsuredGateways(cfg);
    FillingIsFresh(gs, UsedTables(cfg), GATEWAY_TABLE_BASE);
    hide Filled;
    forall i | 0 <= i < |gs|
      ensures gs[i] in gs && (gs[i].tableId != 0 ==> gs[i].tableId in UsedTables(cfg))
    {
      assert gs[i] in gs;
    }
  }

  lemma EditedPeersApart(cfg: Config, e: Edit)
    requires PeersApart(cfg.peers) && (e.Create? ==> |cfg.peers| < PEER_LIMIT)
    ensures PeersApart(Edited(cfg, e).peers)
  {
    hide PeersApart;
    hide WithTables;
    hide Updated;
    match e {
      case Create(form) => CreatingKeeps(cfg.peers, form.(tableId := 0, policyTableId := 0));
      case Update(i, form) => if i < |cfg.peers| { UpdateKeeps(cfg.peers, i, form); }
      case Delete(i) =>
        if i < |cfg.peers| {
          ClearingKeeps(cfg.peers, cfg.peers[i].id);
          DeletingKeeps(if cfg.peers[i].isExitNode then Cleared(cfg.peers, cfg.peers[i].id) else cfg.peers, i);
        }
      case Import(g) =>
    }
  }

  /** Every edit keeps all tables of peers and gateways apart, gives every role that needs a table
      one, and keeps the two ranges separate. */
  lemma EditKeepsTablesApart(cfg: Config, e: Edit)
    requires TablesApart(cfg) && (e.Create? ==> |cfg.peers| < PEER_LIMIT)
    ensures var r := Ensured(Edited(cfg, e)); TablesApart(r) && GatewayTablesApart(r) && cfg.gateways <= r.gateways
  {
    hide UniqueTables;
    hide Filled;
    hide WithTables;
    hide Updated;
    hide Deleted;
    EditedPeersApart(cfg, e);
    var next := Edited(cfg, e);
    assert cfg.gateways <= next.gateways;
    EnsuringKeeps(next);
    FillingIsFresh(next.gateways, UsedTables(next), GATEWAY_TABLE_BASE);
    Prefixed(cfg.gateways, next.gateways, Ensured(next).gateways);
  }

  lemma Prefixed(a: seq<Gateway>, b: seq<Gateway>, c: seq<Gateway>)
    requires a <= b && |b| == |c| && forall i :: 0 <= i < |a| ==> c[i] == b[i]
    ensures a <= c
  {
    assert a == b[..|a|] == c[..|a|];
  }

  ghost function AfterEdits(cfg: Config, edits: seq<Edit>): Config
    decreases |edits|
  {
    if edits == [] then cfg else AfterEdits(Ensured(Edited(cfg, edits[0])), edits[1..])
  }

  /** No peer is created beyond the limit. */
  ghost predicate WithinLimit(cfg: Config, edits: seq<Edit>)
    decreases |edits|
  {
    edits == [] ||
    ((edits[0].Create? ==> |cfg.peers| < PEER_LIMIT) && WithinLimit(Ensured(Edited(cfg, edits[0])), edits[1..]))
  }

  /** Whatever the run of edits, tables stay apart and no gateway ever changes its table. */
  lemma {:induction false} TablesStayApart(cfg: Config, edits: seq<Edit>)
    requires TablesApart(cfg) && WithinLimit(cfg, edits)
    ensures var r := AfterEdits(cfg, edits);
            TablesApart(r) && UniqueTables(r.peers) && GatewayTablesApart(r) && cfg.gateways <= r.gateways
    decreases |edits|
  {
    if edits != [] {
      var next := Ensured(Edited(cfg, edits[0]));
      EditKeepsTablesApart(cfg, edits[0]);
      TablesStayApart(next, edits[1..]);
    }
  }
}
