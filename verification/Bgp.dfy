/** Applying a BGP configuration to the running daemon: withdraw what is no longer wanted, bring every
    session to its new filters, and only then install new local routes. */
module Bgp {
  import opened Lists
  import opened Network
  import opened Filters

  const BGP_PORT := 179
  const LONGEST_PREFIX := 128

  /** A configured session. address is None when the text does not parse; localAddress is what the
      kernel says it would use to reach the peer, if it can. */
  datatype BgpPeer = BgpPeer(
    enabled: bool,
    address: Option<Address>,
    port: nat,
    settings: nat,
    redistribute: bool,
    localAddress: Option<Address>,
    maxReceived: nat,
    maxAdvertised: nat,
    importFilters: seq<RouteFilter>,
    exportFilters: seq<RouteFilter>)

  /** What the daemon is given for one session. */
  datatype PeerConfig = PeerConfig(settings: nat, importChain: Chain, exportChain: Chain)

  /** The locally originated routes in the RIB and the sessions of the daemon. */
  datatype State = State(rib: set<Prefix>, sessions: map<Address, PeerConfig>)

  function Elements(ps: seq<Prefix>): set<Prefix> {
    set p | p in ps
  }

  /** The chain rejects the route on whatever path it comes. */
  ghost predicate Denies(chain: Chain, p: Prefix) {
    forall path :: RunChain(chain, p, path) == Rejected
  }

  ghost predicate DeniesAll(chain: Chain, ps: set<Prefix>) {
    !Redistributes(chain) ==> forall p :: p in ps ==> Denies(chain, p)
  }

  /** No session whose chain does not redistribute can be sent a local route. */
  ghost predicate Safe(s: State) {
    forall ip :: ip in s.sessions ==> DeniesAll(s.sessions[ip].exportChain, s.rib)
  }

  // ---------------------------------------------------------------- the desired sessions

  predicate Buildable(p: BgpPeer) {
    && p.address.Some? && p.port == BGP_PORT
    && p.maxReceived <= LONGEST_PREFIX && p.maxAdvertised <= LONGEST_PREFIX
    && (p.redistribute ==> p.localAddress.Some?)
  }

  function NextHopFor(p: BgpPeer): Option<Address> {
    if p.redistribute then p.localAddress else None
  }

  /** The session lets in and sends exactly what the peer's settings allow, and its local routes carry
      the local address as their next hop if it redistributes them. */
  ghost predicate Configured(c: PeerConfig, p: BgpPeer, locals: seq<Prefix>) {
    && c.settings == p.settings
    && ImportsExactly(c.importChain, p.importFilters, p.maxReceived)
    && ExportsExactly(c.exportChain, p.exportFilters, if p.redistribute then p.localAddress else None, p.maxAdvertised,
                      locals)
    && (Redistributes(c.exportChain) <==> p.redistribute)
  }

  method BuildPeerConfig(p: BgpPeer, locals: seq<Prefix>) returns (c: Option<PeerConfig>)
    ensures c.Some? <==> Buildable(p)
    ensures c.Some? <==>
              && p.address.Some? && p.port == 179
              && p.maxReceived <= 128 && p.maxAdvertised <= 128
              && (!p.redistribute || p.localAddress.Some?)
    ensures c.Some? ==> Configured(c.value, p, locals)
  {
    if !Buildable(p) {
      return None;
    }
    var accepted := BuildFilterChain(p.importFilters);
    var importChain := PrependMaxPrefixLength(accepted, p.maxReceived);
    var exportChain := BuildExportFilterChain(p.exportFilters, NextHopFor(p), p.maxAdvertised, locals);
    c := Some(PeerConfig(p.settings, importChain, exportChain));
  }

  /** Every enabled peer can be built, and no two share an address. */
  ghost predicate Consistent(peers: seq<BgpPeer>) {
    && (forall i :: 0 <= i < |peers| && peers[i].enabled ==> Buildable(peers[i]))
    && (forall i, j :: 0 <= i < j < |peers| && peers[i].enabled && peers[j].enabled ==>
       peers[i].address != peers[j].address)
  }

  /** One configured session per enabled peer and nothing else. */
  ghost predicate Describes(sessions: map<Address, PeerConfig>, peers: seq<BgpPeer>, locals: seq<Prefix>) {
    && (forall i :: 0 <= i < |peers| && peers[i].enabled ==>
          peers[i].address.Some? && peers[i].address.value in sessions
          && Configured(sessions[peers[i].address.value], peers[i], locals))
    && (forall ip :: ip in sessions ==> exists i ::
       0 <= i < |peers| && peers[i].enabled && peers[i].address == Some(ip))
  }

  lemma ConsistentPrefix(seen: seq<BgpPeer>, peers: seq<BgpPeer>)
    requires seen <= peers
    ensures Consistent(peers) ==> Consistent(seen)
  {
    assert forall i :: 0 <= i < |seen| ==> seen[i] == peers[i];
  }

  lemma Collides(sessions: map<Address, PeerConfig>, seen: seq<BgpPeer>, locals: seq<Prefix>, p: BgpPeer)
    requires Describes(sessions, seen, locals) && p.enabled && p.address.Some? && p.address.value in sessions
    ensures !Consistent(seen + [p])
  {
    hide Configured;
    var j :| 0 <= j < |seen| && seen[j].enabled && seen[j].address == p.address;
    var all := seen + [p];
    assert all[j] == seen[j] && all[|seen|] == p;
  }

  lemma OneMoreDescribed(sessions: map<Address, PeerConfig>, seen: seq<BgpPeer>, locals: seq<Prefix>, p: BgpPeer,
                         c: PeerConfig)
    requires Describes(sessions, seen, locals) && Consistent(seen)
    requires p.enabled ==> Buildable(p) && p.address.value !in sessions && Configured(c, p, locals)
    ensures Consistent(seen + [p])
    ensures Describes(if p.enabled then sessions[p.address.value := c] else sessions, seen + [p], locals)
  {
    hide Configured;
    var all := seen + [p];
    assert all[|seen|] == p && forall i :: 0 <= i < |seen| ==> all[i] == seen[i];
    if p.enabled {
      var after := sessions[p.address.value := c];
      forall ip | ip in after
        ensures exists i :: 0 <= i < |all| && all[i].enabled && all[i].address == Some(ip)
      {
        if ip == p.address.value {
          assert all[|seen|].address == Some(ip);
        } else {
          var i :| 0 <= i < |seen| && seen[i].enabled && seen[i].address == Some(ip);
          assert all[i].address == Some(ip);
        }
      }
    } else {
      forall ip | ip in sessions
        ensures exists i :: 0 <= i < |all| && all[i].enabled && all[i].address == Some(ip)
      {
        var i :| 0 <= i < |seen| && seen[i].enabled && seen[i].address == Some(ip);
        assert all[i].address == Some(ip);
      }
    }
  }

  method DesiredPeers(peers: seq<BgpPeer>, locals: seq<Prefix>) returns (desired: Option<map<Address, PeerConfig>>)
    ensures desired.Some? <==> Consistent(peers)
    ensures desired.Some? ==> Describes(desired.value, peers, locals)
  {
    hide Configured;
    var found: map<Address, PeerConfig> := map[];
    assert Consistent([]) && Describes(found, [], locals);
    hide Describes;
    for i := 0 to |peers|
      invariant Consistent(peers[..i]) && Describes(found, peers[..i], locals)
    {
      var p := peers[i];
      assert peers[..i + 1] == peers[..i] + [p];
      if p.enabled {
        var c := BuildPeerConfig(p, locals);
        if c == None {
          return None;
        }
        if p.address.value in found {
          Collides(found, peers[..i], locals, p);
          ConsistentPrefix(peers[..i + 1], peers);
          return None;
        }
        OneMoreDescribed(found, peers[..i], locals, p, c.value);
        found := found[p.address.value := c.value];
      } else {
        OneMoreDescribed(found, peers[..i], locals, p, PeerConfig(0, [], []));
      }
    }
    assert peers[..|peers|] == peers;
    desired := Some(found);
  }

  // ---------------------------------------------------------------- the running daemon

  /** Withdrawing routes keeps every state safe. */
  lemma FewerRoutesStaySafe(rib: set<Prefix>, less: set<Prefix>, sessions: map<Address, PeerConfig>)
    requires Safe(State(rib, sessions)) && less <= rib
    ensures Safe(State(less, sessions))
  {
    hide Denies;
  }

  lemma FewerSessionsStaySafe(rib: set<Prefix>, sessions: map<Address, PeerConfig>, ip: Address)
    requires Safe(State(rib, sessions))
    ensures Safe(State(rib, sessions - {ip}))
  {
    hide DeniesAll;
  }

  lemma OneMoreSessionStaysSafe(rib: set<Prefix>, sessions: map<Address, PeerConfig>, ip: Address, c: PeerConfig)
    requires Safe(State(rib, sessions)) && DeniesAll(c.exportChain, rib)
    ensures Safe(State(rib, sessions[ip := c]))
  {
    hide DeniesAll;
  }

  lemma OneMoreRouteStaysSafe(rib: set<Prefix>, sessions: map<Address, PeerConfig>, p: Prefix)
    requires Safe(State(rib, sessions))
    requires forall ip :: ip in sessions ==> DeniesAll(sessions[ip].exportChain, {p})
    ensures Safe(State(rib + {p}, sessions))
  {
    hide Denies;
    forall ip | ip in sessions
      ensures DeniesAll(sessions[ip].exportChain, rib + {p})
    {
      assert DeniesAll(sessions[ip].exportChain, {p}) && DeniesAll(sessions[ip].exportChain, rib);
      assert p in {p};
    }
  }

  /** A session set up for these local prefixes denies them all, unless it opted in. */
  lemma ConfiguredDenies(c: PeerConfig, p: BgpPeer, locals: seq<Prefix>, some: set<Prefix>)
    requires Configured(c, p, locals) && forall q :: q in some ==> q in locals && Proper(q)
    ensures DeniesAll(c.exportChain, some)
  {
    hide RunChain;
    if !Redistributes(c.exportChain) {
      forall q | q in some
        ensures Denies(c.exportChain, q)
      {
      }
    }
  }

  /** Two configurations the comparison does not tell apart: the same filters, and no settings the
      daemon would have to restart the session for. */
  predicate Interchangeable(a: PeerConfig, b: PeerConfig, restart: (nat, nat) -> bool) {
    !restart(a.settings, b.settings) && a.importChain == b.importChain && a.exportChain == b.exportChain
  }

  ghost function SessionAt(sessions: map<Address, PeerConfig>, ip: Address): Option<PeerConfig> {
    if ip in sessions then Some(sessions[ip]) else None
  }

  /** How the daemon answers: whether it takes a session, as the n-th request, and whether it takes a
      route. */
  datatype Answers = Answers(peer: (nat, Address, PeerConfig) -> bool, path: (nat, Prefix) -> bool)

  /** What becomes of one desired session, with the requests for it starting at n: a missing one is
      added if the daemon takes it, one that already does the same stays, and any other is replaced; if
      the daemon refuses the new one, the previous one comes back if the daemon takes that. */
  ghost predicate Fate(before: Option<PeerConfig>, ip: Address, c: PeerConfig, after: Option<PeerConfig>,
                       restart: (nat, nat) -> bool, env: Answers, n: nat) {
    match before
    case None => after == if env.peer(n, ip, c) then Some(c) else None
    case Some(previous) =>
      if previous.importChain == c.importChain && previous.exportChain == c.exportChain
         && !restart(previous.settings, c.settings) then after == before
      else if env.peer(n, ip, c) then after == Some(c)
      else after == if env.peer(n + 1, ip, previous) then before else None
  }

  /** Every desired session has met its fate, and there is no other; first says which request was the
      first one made for a session. */
  ghost predicate Fates(before: map<Address, PeerConfig>, desired: map<Address, PeerConfig>,
                        after: map<Address, PeerConfig>,
                        restart: (nat, nat) -> bool, env: Answers, first: map<Address, nat>) {
    && after.Keys <= desired.Keys && first.Keys == desired.Keys
    && forall ip :: ip in desired ==>
         Fate(SessionAt(before, ip), ip, desired[ip], SessionAt(after, ip), restart, env, first[ip])
  }

  /** The daemon has refused a desired session. */
  ghost predicate PeerRefused(desired: map<Address, PeerConfig>, env: Answers) {
    exists ip, n: nat :: ip in desired && !env.peer(n, ip, desired[ip])
  }

  ghost predicate PathRefused(locals: seq<Prefix>, env: Answers) {
    exists p, n: nat :: p in locals && !env.path(n, p)
  }

  /** Every session that runs is set up as desired. */
  ghost predicate InForce(sessions: map<Address, PeerConfig>, desired: map<Address, PeerConfig>, ips: set<Address>,
                          restart: (nat, nat) -> bool) {
    forall ip :: ip in ips && ip in desired ==>
      && ip in sessions && sessions[ip].importChain == desired[ip].importChain
      && sessions[ip].exportChain == desired[ip].exportChain
      && (sessions[ip] == desired[ip] || !restart(sessions[ip].settings, desired[ip].settings))
  }

  lemma NothingInForce(sessions: map<Address, PeerConfig>, desired: map<Address, PeerConfig>,
                       restart: (nat, nat) -> bool)
    ensures InForce(sessions, desired, desired.Keys - desired.Keys, restart)
  {
  }

  lemma OneMoreInForce(before: map<Address, PeerConfig>, after: map<Address, PeerConfig>,
                       desired: map<Address, PeerConfig>,
                       seen: set<Address>, ip: Address, restart: (nat, nat) -> bool)
    requires InForce(before, desired, seen, restart) && ip in desired && ip in after
    requires after == before[ip := after[ip]]
    requires after[ip] == desired[ip] || Interchangeable(after[ip], desired[ip], restart)
    ensures InForce(after, desired, seen + {ip}, restart)
  {
  }

  class Runtime {
    var localRoutes: set<Prefix>
    var rib: set<Prefix>
    var sessions: map<Address, PeerConfig>
    var issued: nat

    /** How the daemon answers, and which settings changes it restarts a session for. */
    const env: Answers
    const restart: (nat, nat) -> bool

    /** Every state the daemon has been in. */
    ghost var trace: seq<State>

    ghost function Now(): State
      reads this`rib, this`sessions
    {
      State(rib, sessions)
    }

    /** The daemon is and always was safe. */
    ghost predicate AlwaysSafe()
      reads this`rib, this`sessions, this`trace
    {
      Safe(Now()) && forall s :: s in trace ==> Safe(s)
    }

    ghost predicate Valid()
      reads this`localRoutes, this`rib, this`sessions, this`trace
    {
      localRoutes == rib && (forall p :: p in rib ==> Proper(p)) && AlwaysSafe()
    }

    constructor (env: Answers, restart: (nat, nat) -> bool)
      ensures Valid() && rib == {} && sessions == map[] && trace == [] && this.env == env && this.restart == restart
    {
      localRoutes, rib, sessions, issued, trace := {}, {}, map[], 0, [];
      this.env, this.restart := env, restart;
    }

    method RemovePath(p: Prefix)
      requires AlwaysSafe()
      modifies this`rib, this`trace
      ensures AlwaysSafe() && rib == old(rib) - {p} && trace == old(trace) + [Now()]
    {
      FewerRoutesStaySafe(rib, rib - {p}, sessions);
      hide Safe;
      rib := rib - {p};
      trace := trace + [Now()];
    }

    method DisposePeer(ip: Address)
      requires AlwaysSafe()
      modifies this`sessions, this`trace
      ensures AlwaysSafe() && sessions == old(sessions) - {ip} && trace == old(trace) + [Now()]
    {
      FewerSessionsStaySafe(rib, sessions, ip);
      hide Safe;
      sessions := sessions - {ip};
      trace := trace + [Now()];
    }

    method AddPeer(ip: Address, c: PeerConfig) returns (ok: bool)
      requires AlwaysSafe() && DeniesAll(c.exportChain, rib)
      modifies this`sessions, this`trace, this`issued
      ensures AlwaysSafe() && sessions == (if ok then old(sessions)[ip := c] else old(sessions))
              && trace == old(trace) + [Now()]
      ensures ok == env.peer(old(issued), ip, c) && issued == old(issued) + 1
    {
      OneMoreSessionStaysSafe(rib, sessions, ip, c);
      hide Safe;
      ok := env.peer(issued, ip, c);
      issued := issued + 1;
      if ok {
        sessions := sessions[ip := c];
      }
      trace := trace + [Now()];
    }

    method AddPath(p: Prefix) returns (ok: bool)
      requires AlwaysSafe() && forall ip :: ip in sessions ==> DeniesAll(sessions[ip].exportChain, {p})
      modifies this`rib, this`trace, this`issued
      ensures AlwaysSafe() && rib == (if ok then old(rib) + {p} else old(rib)) && trace == old(trace) + [Now()]
      ensures ok == env.path(old(issued), p) && issued == old(issued) + 1
    {
      OneMoreRouteStaysSafe(rib, sessions, p);
      hide Safe;
      ok := env.path(issued, p);
      issued := issued + 1;
      if ok {
        rib := rib + {p};
      }
      trace := trace + [Now()];
    }

    /** Withdraws every local route that is no longer wanted, in whatever order. */
    method Withdraw(wanted: set<Prefix>)
      requires Valid()
      modifies this`rib, this`localRoutes, this`trace
      ensures Valid() && rib == old(rib) * wanted
      ensures old(trace) <= trace
    {
      hide AlwaysSafe;
      hide Proper;
      var stale := localRoutes - wanted;
      while stale != {}
        invariant localRoutes == rib == old(rib) * (wanted + stale) && stale !! wanted && stale <= rib
        invariant AlwaysSafe() && old(trace) <= trace
        decreases |stale|
      {
        var p :| p in stale;
        RemovePath(p);
        localRoutes := localRoutes - {p};
        stale := stale - {p};
      }
      assert rib == old(rib) * wanted;
    }

    /** Brings one desired session into force; a failed replacement puts the previous session back
        if it can. No other session is touched. */
    method EnsurePeer(ip: Address, c: PeerConfig) returns (ok: bool)
      requires AlwaysSafe() && DeniesAll(c.exportChain, rib)
      modifies this`sessions, this`trace, this`issued
      ensures AlwaysSafe() && old(trace) <= trace
      ensures sessions - {ip} == old(sessions) - {ip}
      ensures Fate(SessionAt(old(sessions), ip), ip, c, SessionAt(sessions, ip), restart, env, old(issued))
      ensures ok ==> ip in sessions && (sessions[ip] == c || Interchangeable(sessions[ip], c, restart))
      ensures !ok ==> !env.peer(old(issued), ip, c)
    {
      if ip !in sessions {
        ok := AddPeer(ip, c);
        return;
      }
      if Interchangeable(sessions[ip], c, restart) {
        return true;
      }
      var previous := sessions[ip];
      assert DeniesAll(previous.exportChain, rib) by {
        assert Safe(Now());
        hide DeniesAll;
      }
      hide AlwaysSafe;
      hide DeniesAll;
      hide Interchangeable;
      DisposePeer(ip);
      ok := AddPeer(ip, c);
      if !ok {
        var restored := AddPeer(ip, previous);
      }
    }

    /** Drops the sessions that are no longer configured. */
    method DropPeers(desired: set<Address>)
      requires AlwaysSafe()
      modifies this`sessions, this`trace
      ensures AlwaysSafe() && old(trace) <= trace
      ensures sessions.Keys == old(sessions).Keys * desired && forall ip :: ip in sessions ==>
              sessions[ip] == old(sessions)[ip]
    {
      hide AlwaysSafe;
      var leaving := sessions.Keys - desired;
      while leaving != {}
        invariant AlwaysSafe() && old(trace) <= trace
        invariant leaving !! desired && sessions.Keys <= desired + leaving && leaving <= sessions.Keys
        invariant sessions.Keys <= old(sessions).Keys && forall ip :: ip in sessions ==>
                  sessions[ip] == old(sessions)[ip]
        invariant forall ip :: ip in old(sessions) && ip in desired ==> ip in sessions
        decreases |leaving|
      {
        var ip :| ip in leaving;
        DisposePeer(ip);
        leaving := leaving - {ip};
      }
    }

    /** Ensures the desired sessions in whatever order, carrying on after a failure. */
    method EnsurePeers(desired: map<Address, PeerConfig>) returns (ok: bool)
      requires AlwaysSafe() && forall ip :: ip in desired ==> DeniesAll(desired[ip].exportChain, rib)
      modifies this`sessions, this`trace, this`issued
      ensures AlwaysSafe() && old(trace) <= trace
      ensures Attempted(old(sessions), desired, sessions, restart, env, ok)
    {
      hide AlwaysSafe;
      hide DeniesAll;
      hide Midway;
      hide Fate;
      hide Attempted;
      ghost var start := sessions;
      DropPeers(desired.Keys);
      ok := true;
      var todo := desired.Keys;
      ghost var first: map<Address, nat> := map[];
      MidwayStarts(start, desired, sessions, restart, env);
      while todo != {}
        invariant AlwaysSafe() && old(trace) <= trace
        invariant todo <= desired.Keys && Midway(start, desired, sessions, todo, restart, env, first, ok)
        decreases |todo|
      {
        var ip :| ip in todo;
        ghost var before, n := sessions, issued;
        var done := EnsurePeer(ip, desired[ip]);
        MidwayStep(start, desired, before, sessions, todo, restart, env, first, ok, ip, n, done);
        first := first[ip := n];
        ok := ok && done;
        todo := todo - {ip};
      }
      MidwayEnds(start, desired, sessions, restart, env, first, ok);
    }

    /** Brings the sessions to what the peers ask for. Nothing happens if that is inconsistent. */
    method ReconcilePeers(peers: seq<BgpPeer>, locals: seq<Prefix>) returns (ok: bool)
      requires AlwaysSafe() && (forall p :: p in locals ==> Proper(p)) && rib <= Elements(locals)
      modifies this`sessions, this`trace, this`issued
      ensures AlwaysSafe() && old(trace) <= trace
      ensures !Consistent(peers) ==> !ok && sessions == old(sessions)
      ensures Consistent(peers) ==> Replaced(old(sessions), peers, locals, sessions, restart, env, ok)
    {
      hide AlwaysSafe;
      hide Describes;
      hide Attempted;
      hide Consistent;
      hide DeniesAll;
      hide Proper;
      var built := DesiredPeers(peers, locals);
      if built == None {
        return false;
      }
      var desired := built.value;
      forall ip | ip in desired
        ensures DeniesAll(desired[ip].exportChain, rib)
      {
        DesiredDenies(desired, peers, locals, ip, rib);
      }
      ok := EnsurePeers(desired);
    }

    /** Installs the local routes that are not there yet, one after the other. */
    method Install(locals: seq<Prefix>) returns (ok: bool)
      requires Valid() && forall p :: p in locals ==> Proper(p)
      requires forall ip, p :: ip in sessions && p in locals ==> DeniesAll(sessions[ip].exportChain, {p})
      modifies this`rib, this`localRoutes, this`trace, this`issued
      ensures Valid() && old(trace) <= trace
      ensures old(rib) <= rib <= old(rib) + Elements(locals)
      ensures ok ==> forall p :: p in locals ==> p in rib
      ensures !ok ==> PathRefused(locals, env)
    {
      hide AlwaysSafe;
      hide DeniesAll;
      for i := 0 to |locals|
        invariant localRoutes == rib && (forall p :: p in rib ==> Proper(p)) && AlwaysSafe() && old(trace) <= trace
        invariant old(rib) <= rib <= old(rib) + Elements(locals)
        invariant forall j :: 0 <= j < i ==> locals[j] in rib
      {
        if locals[i] !in localRoutes {
          ok := AddPath(locals[i]);
          if !ok {
            return;
          }
          localRoutes := localRoutes + {locals[i]};
        }
      }
      ok := true;
    }

    /** One apply. addresses are the host's own and connected prefixes, None if they cannot be read;
        they are asked for only when a session wants them. Whatever fails, no session whose chain does
        not redistribute was or is in a state that sends it a local route, and every desired session
        has met its fate. */
    method Apply(peers: seq<BgpPeer>, addresses: Option<seq<Prefix>>) returns (ok: bool)
      requires Valid() && (addresses.Some? ==> forall p :: p in addresses.value ==> Proper(p))
      modifies this`rib, this`localRoutes, this`sessions, this`trace, this`issued
      ensures Valid() && old(trace) <= trace
      ensures !Reached(peers, addresses) ==> !ok && sessions == old(sessions)
      ensures Reached(peers, addresses) ==>
                Ended(old(sessions), peers, Locals(peers, addresses), sessions, restart, env, ok)
      ensures Unreadable(peers, addresses) ==> rib == old(rib)
      ensures !Unreadable(peers, addresses) ==>
                var wanted := Elements(Locals(peers, addresses));
                old(rib) * wanted <= rib <= wanted && (ok ==> rib == wanted)
    {
      hide AlwaysSafe;
      hide Consistent;
      hide Proper;
      hide Replaced;
      hide PathRefused;
      hide DeniesAll;
      var wanted := WantsLocalRoutes(peers);
      if wanted && addresses == None {
        return false;
      }
      var locals := if wanted then addresses.value else [];
      Withdraw(Elements(locals));
      ghost var before := sessions;
      ok := ReconcilePeers(peers, locals);
      if ok {
        forall ip, p | ip in sessions && p in locals
          ensures DeniesAll(sessions[ip].exportChain, {p})
        {
          ReplacedDenies(before, peers, locals, sessions, restart, env, ip, {p});
        }
        ok := Install(locals);
      }
    }
  }

  /** Some session wants the host's prefixes, and they cannot be read. */
  ghost predicate Unreadable(peers: seq<BgpPeer>, addresses: Option<seq<Prefix>>) {
    addresses == None && exists p :: p in peers && p.enabled && p.redistribute
  }

  /** The apply gets as far as the sessions. */
  ghost predicate Reached(peers: seq<BgpPeer>, addresses: Option<seq<Prefix>>) {
    !Unreadable(peers, addresses) && Consistent(peers)
  }

  /** The sessions after an attempt to bring them to what the peers ask for. */
  ghost predicate Replaced(before: map<Address, PeerConfig>, peers: seq<BgpPeer>, locals: seq<Prefix>,
                           after: map<Address, PeerConfig>,
                           restart: (nat, nat) -> bool, env: Answers, ok: bool) {
    exists desired :: Describes(desired, peers, locals) && Attempted(before, desired, after, restart, env, ok)
  }

  ghost predicate Attempted(before: map<Address, PeerConfig>, desired: map<Address, PeerConfig>,
                            after: map<Address, PeerConfig>,
                            restart: (nat, nat) -> bool, env: Answers, ok: bool) {
    && (exists first :: Fates(before, desired, after, restart, env, first))
    && (ok ==> InForce(after, desired, desired.Keys, restart))
    && (!ok ==> PeerRefused(desired, env))
  }

  /** How an apply that reaches the sessions ends: it succeeds unless the daemon refuses something. */
  ghost predicate Ended(before: map<Address, PeerConfig>, peers: seq<BgpPeer>, locals: seq<Prefix>,
                        after: map<Address, PeerConfig>,
                        restart: (nat, nat) -> bool, env: Answers, ok: bool) {
    || (Replaced(before, peers, locals, after, restart, env, true) && (ok || PathRefused(locals, env)))
    || (Replaced(before, peers, locals, after, restart, env, false) && !ok)
  }

  lemma OthersStay(before: map<Address, PeerConfig>, after: map<Address, PeerConfig>, ip: Address)
    requires after - {ip} == before - {ip}
    ensures forall x :: x != ip ==> SessionAt(after, x) == SessionAt(before, x)
    ensures after.Keys <= before.Keys + {ip}
    ensures ip in after ==> after == before[ip := after[ip]]
  {
    forall x | x != ip
      ensures SessionAt(after, x) == SessionAt(before, x) && (x in after <==> x in before)
    {
      assert x in after <==> x in after - {ip};
      assert x in before <==> x in before - {ip};
      if x in after {
        assert (after - {ip})[x] == after[x] && (before - {ip})[x] == before[x];
      }
    }
    if ip in after {
      forall x | x in after
        ensures x in before[ip := after[ip]] && after[x] == before[ip := after[ip]][x]
      {
        if x != ip {
          assert SessionAt(after, x) == SessionAt(before, x);
        }
      }
    }
  }

  // ---------------------------------------------------------------- the loop over the desired sessions

  /** Where the loop stands: the sessions still to do are as they were, the others have met their fate. */
  ghost predicate Midway(start: map<Address, PeerConfig>, desired: map<Address, PeerConfig>,
                         now: map<Address, PeerConfig>,
                         todo: set<Address>, restart: (nat, nat) -> bool, env: Answers, first: map<Address, nat>,
                         ok: bool) {
    && now.Keys <= desired.Keys && first.Keys == desired.Keys - todo
    && (forall ip :: ip in todo ==> SessionAt(now, ip) == SessionAt(start, ip))
    && (forall ip :: ip in desired && ip !in todo ==>
          Fate(SessionAt(start, ip), ip, desired[ip], SessionAt(now, ip), restart, env, first[ip]))
    && (ok ==> InForce(now, desired, desired.Keys - todo, restart))
    && (!ok ==> PeerRefused(desired, env))
  }

  lemma MidwayStarts(start: map<Address, PeerConfig>, desired: map<Address, PeerConfig>, now: map<Address, PeerConfig>,
                     restart: (nat, nat) -> bool, env: Answers)
    requires now.Keys == start.Keys * desired.Keys && forall ip :: ip in now ==> now[ip] == start[ip]
    ensures Midway(start, desired, now, desired.Keys, restart, env, map[], true)
  {
    NothingInForce(now, desired, restart);
  }

  lemma MidwayStep(start: map<Address, PeerConfig>, desired: map<Address, PeerConfig>, before: map<Address, PeerConfig>,
                   after: map<Address, PeerConfig>, todo: set<Address>, restart: (nat, nat) -> bool, env: Answers,
                   first: map<Address, nat>, ok: bool, ip: Address, n: nat, done: bool)
    requires Midway(start, desired, before, todo, restart, env, first, ok) && ip in todo && todo <= desired.Keys
    requires after - {ip} == before - {ip}
    requires Fate(SessionAt(before, ip), ip, desired[ip], SessionAt(after, ip), restart, env, n)
    requires done ==> ip in after && (after[ip] == desired[ip] || Interchangeable(after[ip], desired[ip], restart))
    requires !done ==> !env.peer(n, ip, desired[ip])
    ensures Midway(start, desired, after, todo - {ip}, restart, env, first[ip := n], ok && done)
  {
    hide Fate;
    hide Interchangeable;
    hide InForce;
    OthersStay(before, after, ip);
    hide SessionAt;
    if ok && done {
      OneMoreInForce(before, after, desired, desired.Keys - todo, ip, restart);
      assert desired.Keys - (todo - {ip}) == (desired.Keys - todo) + {ip};
    }
  }

  lemma MidwayEnds(start: map<Address, PeerConfig>, desired: map<Address, PeerConfig>, now: map<Address, PeerConfig>,
                   restart: (nat, nat) -> bool, env: Answers, first: map<Address, nat>, ok: bool)
    requires Midway(start, desired, now, {}, restart, env, first, ok)
    ensures Attempted(start, desired, now, restart, env, ok)
  {
    hide Fate;
    hide InForce;
    assert desired.Keys - {} == desired.Keys;
    assert Fates(start, desired, now, restart, env, first);
  }

  lemma ReplacedDenies(before: map<Address, PeerConfig>, peers: seq<BgpPeer>, locals: seq<Prefix>,
                       after: map<Address, PeerConfig>,
                       restart: (nat, nat) -> bool, env: Answers, ip: Address, some: set<Prefix>)
    requires Replaced(before, peers, locals, after, restart, env, true) && ip in after
    requires (forall p :: p in locals ==> Proper(p)) && some <= Elements(locals)
    ensures DeniesAll(after[ip].exportChain, some)
  {
    hide Describes;
    hide Fate;
    hide DeniesAll;
    var desired :| Describes(desired, peers, locals) && Attempted(before, desired, after, restart, env, true);
    DesiredDenies(desired, peers, locals, ip, some);
  }

  // ---------------------------------------------------------------- opting out

  /** What a failed replacement can leave behind, exactly: a session the configuration opts out, or any
      other it wants without local routes, still has a chain that redistributes them after an attempt
      if and only if it had one before, the daemon refused the new session and took the previous one
      back. */
  lemma OptOutExact(before: map<Address, PeerConfig>, desired: map<Address, PeerConfig>,
                    after: map<Address, PeerConfig>,
                    restart: (nat, nat) -> bool, env: Answers, first: map<Address, nat>, ip: Address)
    requires Fates(before, desired, after, restart, env, first) && ip in desired
             && !Redistributes(desired[ip].exportChain)
    ensures ip in after && Redistributes(after[ip].exportChain) <==>
              && ip in before && Redistributes(before[ip].exportChain)
              && !env.peer(first[ip], ip, desired[ip]) && env.peer(first[ip] + 1, ip, before[ip])
  {
    hide Redistributes;
    assert Fate(SessionAt(before, ip), ip, desired[ip], SessionAt(after, ip), restart, env, first[ip]);
  }

  /** A live desired session is in force, or what it was before; after a success it is in force. */
  lemma LiveSession(before: map<Address, PeerConfig>, desired: map<Address, PeerConfig>,
                    after: map<Address, PeerConfig>,
                    restart: (nat, nat) -> bool, env: Answers, ok: bool, ip: Address)
    requires Attempted(before, desired, after, restart, env, ok) && ip in desired && ip in after
    ensures after[ip].exportChain == desired[ip].exportChain || (!ok && ip in before && after[ip] == before[ip])
  {
    hide PeerRefused;
    var first :| Fates(before, desired, after, restart, env, first);
    assert Fate(SessionAt(before, ip), ip, desired[ip], SessionAt(after, ip), restart, env, first[ip]);
    assert ip in desired.Keys;
  }

  /** What a session may be sent once an attempt has been made, by configuration: one that is opted out
      denies every local route there is, unless it ran opted in before and is unchanged. */
  lemma OptedOutDenies(before: map<Address, PeerConfig>, peers: seq<BgpPeer>, locals: seq<Prefix>, rib: set<Prefix>,
                       after: map<Address, PeerConfig>, restart: (nat, nat) -> bool, env: Answers, ok: bool, i: nat,
                       ip: Address)
    requires Replaced(before, peers, locals, after, restart, env, ok) && Safe(State(rib, after))
    requires i < |peers| && peers[i].enabled && !peers[i].redistribute && peers[i].address == Some(ip) && ip in after
    ensures (forall p :: p in rib ==> Denies(after[ip].exportChain, p))
            || (ip in before && after[ip] == before[ip] && Redistributes(before[ip].exportChain))
    ensures ok ==> forall p :: p in rib ==> Denies(after[ip].exportChain, p)
  {
    hide Denies;
    hide Redistributes;
    hide ExportsExactly;
    hide Fates;
    hide InForce;
    var desired :| Describes(desired, peers, locals) && Attempted(before, desired, after, restart, env, ok);
    assert Configured(desired[ip], peers[i], locals) && DeniesAll(after[ip].exportChain, rib);
    hide Describes;
    LiveSession(before, desired, after, restart, env, ok, ip);
  }

  /** The local prefixes an apply works with: none unless some session takes them. */
  ghost function Locals(peers: seq<BgpPeer>, addresses: Option<seq<Prefix>>): seq<Prefix> {
    if (exists p :: p in peers && p.enabled && p.redistribute) && addresses.Some? then addresses.value else []
  }

  method WantsLocalRoutes(peers: seq<BgpPeer>) returns (wanted: bool)
    ensures wanted <==> exists p :: p in peers && p.enabled && p.redistribute
  {
    for i := 0 to |peers|
      invariant forall j :: 0 <= j < i ==> !(peers[j].enabled && peers[j].redistribute)
    {
      if peers[i].enabled && peers[i].redistribute {
        assert peers[i] in peers;
        return true;
      }
    }
    wanted := false;
  }

  lemma DesiredDenies(desired: map<Address, PeerConfig>, peers: seq<BgpPeer>, locals: seq<Prefix>, ip: Address,
                      some: set<Prefix>)
    requires Describes(desired, peers, locals) && ip in desired
    requires (forall p :: p in locals ==> Proper(p)) && some <= Elements(locals)
    ensures DeniesAll(desired[ip].exportChain, some)
  {
    hide Configured;
    var i :| 0 <= i < |peers| && peers[i].enabled && peers[i].address == Some(ip);
    ConfiguredDenies(desired[ip], peers[i], locals, some);
  }

  // ---------------------------------------------------------------- an opt-out that does not take

  /** A session without filters or limits. */
  function PlainSession(ip: Address, redistribute: bool): BgpPeer {
    BgpPeer(true, Some(ip), BGP_PORT, 0, redistribute, Some(ip), 0, 0, [], [])
  }

  /** A daemon that takes everything but a session with b that does not redistribute. */
  ghost predicate KeepsOptedIn(env: Answers, b: Address) {
    && (forall n, ip, c :: env.peer(n, ip, c) <==> ip != b || Redistributes(c.exportChain))
    && forall n, p :: env.path(n, p)
  }

  lemma PlainConsistent(a: Address, b: Address, redistribute: bool)
    requires a != b
    ensures Consistent([PlainSession(a, true), PlainSession(b, redistribute)])
  {
  }

  lemma PlainSends(c: PeerConfig, b: Address, p: Prefix)
    requires Proper(p) && Configured(c, PlainSession(b, true), [p])
    ensures !Denies(c.exportChain, p)
  {
    hide RunChain;
    var path := Path(true, b);
    assert Policy([], p);
    assert RunChain(c.exportChain, p, path).Accepted?;
  }

  lemma OptedInRuns(before: map<Address, PeerConfig>, after: map<Address, PeerConfig>, restart: (nat, nat) -> bool,
                    env: Answers,
                    a: Address, b: Address, p: Prefix, ok: bool)
    requires a != b && Proper(p) && KeepsOptedIn(env, b)
    requires Ended(before, [PlainSession(a, true), PlainSession(b, true)], [p], after, restart, env, ok)
    ensures ok && b in after && Redistributes(after[b].exportChain) && !Denies(after[b].exportChain, p)
  {
    hide Fates;
    hide Redistributes;
    hide ExportsExactly;
    hide Denies;
    var peers := [PlainSession(a, true), PlainSession(b, true)];
    var replaced := Replaced(before, peers, [p], after, restart, env, true);
    var desired :| Describes(desired, peers, [p]) && Attempted(before, desired, after, restart, env, replaced);
    assert peers[1].enabled && Configured(desired[b], peers[1], [p]);
    assert replaced && b in desired.Keys;
    assert after[b].exportChain == desired[b].exportChain;
    PlainSends(desired[b], b, p);
  }

  lemma OldSessionReturns(before: map<Address, PeerConfig>, desired: map<Address, PeerConfig>,
                          after: map<Address, PeerConfig>,
                          restart: (nat, nat) -> bool, env: Answers, b: Address, replaced: bool)
    requires KeepsOptedIn(env, b) && b in before && Redistributes(before[b].exportChain)
    requires Attempted(before, desired, after, restart, env, replaced) && b in desired
             && !Redistributes(desired[b].exportChain)
    ensures !replaced && b in after && after[b] == before[b]
  {
    hide Redistributes;
    var first :| Fates(before, desired, after, restart, env, first);
    assert Fate(SessionAt(before, b), b, desired[b], SessionAt(after, b), restart, env, first[b]);
    assert b in desired.Keys;
  }

  lemma OptedInStays(before: map<Address, PeerConfig>, after: map<Address, PeerConfig>, restart: (nat, nat) -> bool,
                     env: Answers,
                     a: Address, b: Address, p: Prefix, ok: bool)
    requires KeepsOptedIn(env, b) && b in before && Redistributes(before[b].exportChain)
    requires Ended(before, [PlainSession(a, true), PlainSession(b, false)], [p], after, restart, env, ok)
    ensures !ok && b in after && after[b] == before[b]
  {
    hide Redistributes;
    hide ExportsExactly;
    hide Attempted;
    hide KeepsOptedIn;
    var peers := [PlainSession(a, true), PlainSession(b, false)];
    var replaced := Replaced(before, peers, [p], after, restart, env, true);
    var desired :| Describes(desired, peers, [p]) && Attempted(before, desired, after, restart, env, replaced);
    assert peers[1].enabled && Configured(desired[b], peers[1], [p]);
    OldSessionReturns(before, desired, after, restart, env, b, replaced);
  }

  /** Two sessions take the local route p; then b is opted out, but the daemon refuses the new session
      and takes the old one back. The apply fails, and b can still be sent p, which a keeps wanted. */
  method OptOutReverted(a: Address, b: Address, p: Prefix) returns (daemon: Runtime, first: bool, second: bool)
    requires a != b && Proper(p)
    ensures first && !second
    ensures p in daemon.rib && b in daemon.sessions && !Denies(daemon.sessions[b].exportChain, p)
  {
    hide RunChain;
    hide Redistributes;
    hide Ended;
    hide Consistent;
    hide PlainSession;
    hide Runtime.Valid;
    var env := Answers((n, ip, c: PeerConfig) => ip != b || Redistributes(c.exportChain), (n, q) => true);
    daemon := new Runtime(env, (x, y) => x != y);
    var peers, later := [PlainSession(a, true), PlainSession(b, true)], [PlainSession(a, true), PlainSession(b, false)];
    PlainConsistent(a, b, true);
    PlainConsistent(a, b, false);
    WantedHere(peers, later, a, b, p);
    first := daemon.Apply(peers, Some([p]));
    ghost var before := daemon.sessions;
    OptedInRuns(map[], before, daemon.restart, daemon.env, a, b, p, first);
    assert p in Elements([p]) && p in daemon.rib;
    second := daemon.Apply(later, Some([p]));
    OptedInStays(before, daemon.sessions, daemon.restart, daemon.env, a, b, p, second);
  }

  lemma WantedHere(peers: seq<BgpPeer>, later: seq<BgpPeer>, a: Address, b: Address, p: Prefix)
    requires peers == [PlainSession(a, true), PlainSession(b, true)]
             && later == [PlainSession(a, true), PlainSession(b, false)]
    ensures Locals(peers, Some([p])) == [p] && Locals(later, Some([p])) == [p]
  {
    assert PlainSession(a, true) in peers && PlainSession(a, true) in later;
  }
}
