/** The configuration store: one transaction over the memory, the YAML file, the live routing state
    and the flag that says WireGuard needs a full restart. */
module ConfigStore {
  import opened Lists
  import opened Network
  import opened Models
  import opened Kernel
  import opened Runs
  import opened IpRules
  import opened StrictChains
  import opened GatewayChains
  import opened Routes
  import opened Generators
  import opened FailClosed
  import opened Guards
  import opened Convergence
  import opened FaultFreeRuns
  import opened Reconcile
  import opened Tables
  import opened Wireguard

  datatype Stats = Stats(lastSeen: nat, rx: nat, tx: nat)

  /** A peer with its key and its traffic record; lastSeen is 0 for a peer never seen. */
  datatype Entry = Entry(peer: Peer, publicKey: string, stats: Stats)

  datatype AppConfig = AppConfig(server: Server, entries: seq<Entry>, gateways: seq<Gateway>, zeroTier: ZeroTier)

  function PeersOf(entries: seq<Entry>): (r: seq<Peer>)
    ensures |r| == |entries| && forall i :: 0 <= i < |r| ==> r[i] == entries[i].peer
  {
    seq(|entries|, i requires 0 <= i < |entries| => entries[i].peer)
  }

  /** The part of the configuration the routing code reads. */
  function RoutingConfig(c: AppConfig): Config {
    Config(PeersOf(c.entries), c.gateways, c.zeroTier)
  }

  ghost function WithGatewayTables(c: AppConfig): AppConfig {
    c.(gateways := EnsuredGateways(RoutingConfig(c)))
  }

  predicate LacksTables(c: AppConfig) {
    exists g :: g in c.gateways && g.tableId == 0
  }

  /** What reading and parsing the file comes to. */
  datatype FileRead = Missing | Unreadable | Malformed | Parsed(config: AppConfig)

  /** Equal but for what the traffic poller records. */
  ghost predicate SameButStats(a: AppConfig, b: AppConfig) {
    && a.server == b.server && a.gateways == b.gateways && a.zeroTier == b.zeroTier
    && |a.entries| == |b.entries|
    && forall i :: 0 <= i < |a.entries| ==> a.entries[i].(stats := b.entries[i].stats) == b.entries[i]
  }

  /** How the surroundings treat one write: the two saves, the rendering, the two looks at the
      interface, syncconf and the BGP daemon. */
  datatype Io = Io(
    saved: bool,
    rendered: bool,
    restored: bool,
    running: bool,
    reloaded: bool,
    stillUp: bool,
    bgp: bool)

  /** What routing.Reconcile depends on besides the configuration: the on-link networks, the
      masquerade bypasses, and the order in which each exit-node map is iterated. */
  datatype Live = Live(nets: seq<GatewayNet>, bypass: seq<Prefix>, before: seq<Peer>, after: seq<Peer>)

  datatype ApplyError = ReloadFailed | InterfaceDown | RestartNeeded | RoutingFailed | BgpFailed

  datatype WriteResult =
    | Saved
    | MutationFailed
    | Invalid
    | SaveFailed
    | RenderFailed(restored: bool)
    | ApplyFailed(errors: seq<ApplyError>)
  {
    /** The new configuration is in force: callers must not retry. */
    predicate Kept() {
      Saved? || ApplyFailed?
    }

    function Errors(): seq<ApplyError> {
      if ApplyFailed? then errors else []
    }
  }

  /** What the store did to the live system, and the restart flag at that moment. */
  datatype Action =
    | Reconciled(pending: bool)
    | ConfiguredBgp(enabled: bool, pending: bool)

  ghost predicate NeverWhilePending(a: Action) {
    match a
    case Reconciled(pending) => !pending
    case ConfiguredBgp(enabled, pending) => enabled ==> !pending
  }

  class Store {
    var config: AppConfig
    var routingState: AppConfig
    var routingNets: seq<GatewayNet>
    var routingBypass: seq<Prefix>
    var statsDirty: bool
    var wgRestartPending: bool
    var wgAppliedServer: Server
    var wgHasApplied: bool

    /** The file on disk, absent until the first save. */
    var yaml: Option<AppConfig>

    const host: Host
    const lan: seq<Prefix>

    /** Set when the file could not be put back after a failed write; the next save clears it. */
    ghost var diverged: bool
    ghost var log: seq<Action>

    ghost predicate Valid()
      reads this, host
    {
      && FlagExact() && FileFollows() && Sane(host.kernel)
      && forall a :: a in log ==> NeverWhilePending(a)
    }

    /** The restart flag: set while nothing was ever applied, and afterwards exactly while the
        server settings differ from the applied ones in something only wg-quick can change. */
    ghost predicate FlagExact()
      reads this`wgHasApplied, this`wgRestartPending, this`wgAppliedServer, this`config
    {
      && (!wgHasApplied ==> wgRestartPending)
      && (wgHasApplied ==> (wgRestartPending <==> !SameInterface(wgAppliedServer, config.server)))
    }

    /** Unless a restore failed, the file equals memory up to statistics, and entirely while no
        statistics are waiting to be saved. */
    ghost predicate FileFollows()
      reads this`diverged, this`yaml, this`config, this`statsDirty
    {
      !diverged && yaml.Some? ==>
        SameButStats(yaml.value, config) && (!statsDirty ==> yaml.value == config)
    }

    ghost function Applied(order: seq<Peer>): Inputs
      reads this`routingState, this`routingNets, this`routingBypass
    {
      Inputs(RoutingConfig(routingState), routingNets, routingBypass, lan, order)
    }

    ghost function Desired(live: Live): Inputs
      reads this`config
    {
      Inputs(RoutingConfig(config), live.nets, live.bypass, lan, live.after)
    }

    /** The kernel holds exactly the routing state the store believes applied. */
    ghost predicate InStep(rules: map<Slot, seq<RuleBody>>, routes: map<RouteKey, Hop>)
      reads this`routingState, this`routingNets, this`routingBypass, host
    {
      Holds(host.kernel, Applied([]), rules, routes)
    }

    /** A store on a configuration, with nothing applied yet. */
    constructor (config: AppConfig, yaml: Option<AppConfig>, lan: seq<Prefix>, host: Host)
      requires Sane(host.kernel) && (yaml.Some? ==> yaml.value == config)
      ensures Valid() && this.host == host && this.lan == lan
      ensures wgRestartPending && !wgHasApplied && log == [] && !statsDirty && !diverged
      ensures this.config == config && this.yaml == yaml
      ensures routingState == config && routingNets == [] && routingBypass == []
    {
      this.host, this.lan := host, lan;
      this.config, this.yaml := config, yaml;
      statsDirty, wgRestartPending, wgHasApplied := false, true, false;
      wgAppliedServer := config.server;
      routingState, routingNets, routingBypass := config, [], [];
      diverged, log := false, [];
    }

    /** Reads the file, or starts from defaults without one; missing gateway tables are filled in and
        saved. A file that cannot be read or parsed, or a needed save that fails, means no store. */
    static method Load(file: FileRead, defaults: AppConfig, saved: bool, lan: seq<Prefix>, host: Host)
      returns (store: Store?)
      requires Sane(host.kernel)
      ensures store == null <==>
                file.Unreadable? || file.Malformed? || (file.Parsed? && LacksTables(file.config) && !saved)
      ensures store != null ==>
                && fresh(store) && store.Valid() && store.host == host && store.lan == lan
                && store.wgRestartPending && !store.wgHasApplied && store.log == [] && !store.statsDirty
                   && !store.diverged
                && store.config == (if file.Missing? then defaults else WithGatewayTables(file.config))
                && store.yaml == (if file.Missing? then None else Some(store.config))
                && store.routingState == store.config && store.routingNets == [] && store.routingBypass == []
    {
      hide Sane;
      hide WithGatewayTables;
      match file
      case Missing =>
        store := new Store(defaults, None, lan, host);
      case Unreadable =>
        store := null;
      case Malformed =>
        store := null;
      case Parsed(c) =>
        var s := new Store(c, Some(c), lan, host);
        var changed := s.EnsureTables();
        if changed {
          if !saved {
            return null;
          }
          s.SaveYAML();
        }
        s.routingState := s.config;
        Unchanged(s.config);
        store := s;
    }

    /** Fills in missing gateway tables in memory. */
    method EnsureTables() returns (changed: bool)
      modifies this`config
      ensures config == WithGatewayTables(old(config))
      ensures changed <==> LacksTables(old(config))
      ensures !changed ==> config == old(config)
    {
      var before := config.gateways;
      var gateways := new Gateway[|before|](i requires 0 <= i < |before| => before[i]);
      assert gateways[..] == before;
      changed := EnsureGatewayTables(gateways, PeersOf(config.entries));
      config := config.(gateways := gateways[..]);
      if !changed {
        assert forall g :: g in before ==> g.tableId != 0;
        NothingToFill(before, UsedTables(RoutingConfig(old(config))), GATEWAY_TABLE_BASE);
      }
    }

    /** A complete save: the file is written beside the old one and renamed over it. */
    method SaveYAML()
      modifies this`yaml, this`diverged
      ensures yaml == Some(config) && !diverged
    {
      yaml := Some(config);
      diverged := false;
    }

    /** Moves the kernel from the applied state to the desired one; only success is remembered. */
    method ConvergeRouting(interfaceUp: bool, live: Live) returns (failure: Option<Failure>)
      requires Sane(host.kernel) && !wgRestartPending
      modifies this`routingState, this`routingNets, this`routingBypass, this`log, host
      ensures Sane(host.kernel)
      ensures log == old(log) + [Reconciled(wgRestartPending)]
      ensures if failure == None
              then routingState == config && routingNets == live.nets && routingBypass == live.bypass
              else (routingState == old(routingState) && routingNets == old(routingNets)
                    && routingBypass == old(routingBypass))
      ensures Moved(old(host.kernel), host.kernel, interfaceUp, failure, old(Applied(live.before)), Desired(live))
      ensures !interfaceUp ==> host.kernel == old(host.kernel)
      ensures forall rules, routes ::
                interfaceUp && NoFaults(host.env) && old(InStep(rules, routes))
                && Movable(old(Applied(live.before)), Desired(live), rules, routes) ==>
                failure == None && InStep(rules, routes)
    {
      hide RunFrom;
      hide ReconcileCmds;
      hide Affected;
      hide RejectsProtected;
      hide GuardsConserved;
      hide Convergence.Valid;
      hide ForeignTo;
      hide Holds;
      hide Sane;
      ghost var k, t := host.kernel, host.issued;
      var prev := Inputs(RoutingConfig(routingState), routingNets, routingBypass, lan, live.before);
      var next := Inputs(RoutingConfig(config), live.nets, live.bypass, lan, live.after);
      failure := host.Reconcile(interfaceUp, prev, next);
      if failure == None {
        routingState, routingNets, routingBypass := config, live.nets, live.bypass;
      }
      log := log + [Reconciled(wgRestartPending)];
      if interfaceUp && NoFaults(host.env) {
        forall rules, routes | old(InStep(rules, routes)) && Movable(prev, next, rules, routes)
          ensures failure == None && InStep(rules, routes)
        {
          Exact(k, prev, next, rules, routes, host.env, t);
        }
      }
    }

    /** The live half of a write: reload, then routing, then BGP, each collecting its error. Routing
        and an enabled BGP are left alone while a restart is pending. */
    method ApplyLive(io: Io, live: Live) returns (errors: seq<ApplyError>, ghost failure: Option<Failure>)
      requires Valid()
      modifies this`routingState, this`routingNets, this`routingBypass, this`log, host
      ensures Valid()
      ensures Reported(io, wgRestartPending, config.server.bgpEnabled, failure, errors, old(log), log)
      ensures if io.running && io.reloaded && !wgRestartPending
              then Moved(old(host.kernel), host.kernel, io.stillUp, failure, old(Applied(live.before)), Desired(live))
              else failure == None && host.kernel == old(host.kernel)
      ensures !io.stillUp ==> host.kernel == old(host.kernel)
      ensures SameApplied(Applied([]), if io.running && io.reloaded && !wgRestartPending && failure == None
                                       then Desired(live) else old(Applied([])))
      ensures forall rules, routes ::
                io.running && io.reloaded && !wgRestartPending && io.stillUp
                && NoFaults(host.env) && old(InStep(rules, routes))
                && Movable(old(Applied(live.before)), Desired(live), rules, routes) ==>
                failure == None && InStep(rules, routes)
    {
      hide Sane;
      hide Moved;
      hide Movable;
      hide InStep;
      hide SameInterface;
      hide SameButStats;
      errors, failure := [], None;
      if !io.reloaded {
        errors := errors + [ReloadFailed];
      } else if !io.running {
        errors := errors + [InterfaceDown];
      } else if wgRestartPending {
        errors := errors + [RestartNeeded];
      } else {
        var outcome := ConvergeRouting(io.stillUp, live);
        failure := outcome;
        if outcome.Some? {
          errors := errors + [RoutingFailed];
        }
      }
      if !config.server.bgpEnabled || (io.running && io.reloaded && !wgRestartPending) {
        log := log + [ConfiguredBgp(config.server.bgpEnabled, wgRestartPending)];
        if !io.bgp {
          errors := errors + [BgpFailed];
        }
      }
    }

    /** Compares the new server settings with the applied ones, or while nothing was applied with
        the previous ones. */
    method RefreshFlag(previous: Server)
      requires !wgHasApplied ==> wgRestartPending
      modifies this`wgRestartPending
      ensures FlagExact()
    {
      if wgHasApplied {
        var reason := ServerRestartReason(wgAppliedServer, config.server);
        wgRestartPending := reason.Some?;
      } else {
        var reason := ServerRestartReason(previous, config.server);
        if reason.Some? {
          wgRestartPending := true;
        }
      }
    }

    /** Edit, fill in tables, set the restart flag, validate; a refused edit is undone. */
    method Edit(mutate: AppConfig -> (AppConfig, bool), valid: AppConfig -> bool) returns (refused: WriteResult)
      requires FlagExact()
      modifies this`config, this`wgRestartPending
      ensures FlagExact()
      ensures refused == (if !mutate(old(config)).1 then MutationFailed
                          else if !valid(WithGatewayTables(mutate(old(config)).0)) then Invalid else Saved)
      ensures refused == Saved ==> config == WithGatewayTables(mutate(old(config)).0)
      ensures refused != Saved ==> config == old(config) && wgRestartPending == old(wgRestartPending)
    {
      hide SameInterface;
      hide WithGatewayTables;
      var backup, backupRestartPending := config, wgRestartPending;
      var (edited, accepted) := mutate(config);
      config := edited;
      if !accepted {
        config := backup;
        return MutationFailed;
      }
      var filled := EnsureTables();
      RefreshFlag(backup.server);
      if !valid(config) {
        config, wgRestartPending := backup, backupRestartPending;
        return Invalid;
      }
      refused := Saved;
    }

    /** Save and render; if either fails, memory, flag and as far as possible the file go back. */
    method Commit(backup: AppConfig, backupRestartPending: bool, io: Io) returns (stopped: WriteResult)
      modifies this`config, this`wgRestartPending, this`statsDirty, this`yaml, this`diverged
      ensures stopped == (if !io.saved then SaveFailed else if !io.rendered then RenderFailed(io.restored) else Saved)
      ensures stopped == Saved ==>
                config == old(config) && wgRestartPending == old(wgRestartPending)
                && yaml == Some(config) && !statsDirty && !diverged
      ensures stopped != Saved ==> config == backup && wgRestartPending == backupRestartPending
      ensures stopped == SaveFailed ==> yaml == old(yaml) && statsDirty == old(statsDirty) && diverged == old(diverged)
      ensures stopped == RenderFailed(true) ==> yaml == Some(config) && !statsDirty && !diverged
      ensures stopped == RenderFailed(false) ==> yaml == Some(old(config)) && !statsDirty && diverged
    {
      if !io.saved {
        config, wgRestartPending := backup, backupRestartPending;
        return SaveFailed;
      }
      SaveYAML();
      statsDirty := false;
      if !io.rendered {
        config, wgRestartPending := backup, backupRestartPending;
        if !io.restored {
          diverged := true;
          return RenderFailed(false);
        }
        SaveYAML();
        return RenderFailed(true);
      }
      stopped := Saved;
    }

    /** The part of a write that can be undone. A result says where it stopped. */
    method Persist(mutate: AppConfig -> (AppConfig, bool), valid: AppConfig -> bool, io: Io)
      returns (stopped: WriteResult)
      requires Valid()
      modifies this`config, this`wgRestartPending, this`statsDirty, this`yaml, this`diverged
      ensures Valid()
      ensures stopped == Progress(mutate(old(config)), valid, io)
      ensures Transacted(old(Memory()), Memory(), mutate(old(config)), valid, io)
    {
      hide Sane;
      hide SameInterface;
      hide SameButStats;
      hide WithGatewayTables;
      var backup, backupRestartPending := config, wgRestartPending;
      stopped := Edit(mutate, valid);
      if stopped == Saved {
        stopped := Commit(backup, backupRestartPending, io);
      }
      Unchanged(config);
    }

    ghost function Memory(): Persistent
      reads this`config, this`wgRestartPending, this`statsDirty, this`yaml, this`diverged
    {
      Persistent(config, wgRestartPending, statsDirty, yaml, diverged)
    }

    /** One write. The mutation may edit the configuration and then refuse; validation, the save and
        the rendering may each fail. Until both files are written everything can still be undone;
        from then on the new configuration stays, and live failures are only reported. */
    method Write(mutate: AppConfig -> (AppConfig, bool), valid: AppConfig -> bool, io: Io, live: Live)
      returns (result: WriteResult)
      requires Valid()
      modifies this, host
      ensures Valid()
      ensures var reached := Progress(mutate(old(config)), valid, io);
              result == reached || (result.Kept() && reached == Saved)
      ensures Transacted(old(Memory()), Memory(), mutate(old(config)), valid, io)
      ensures wgAppliedServer == old(wgAppliedServer) && wgHasApplied == old(wgHasApplied)
      ensures !result.Kept() ==>
                log == old(log) && host.kernel == old(host.kernel) && SameApplied(old(Applied([])), Applied([]))
      // the live half
      ensures result == Saved ==> !wgRestartPending && SameApplied(Applied([]), Desired(live))
      ensures result.Kept() ==>
                exists failure: Option<Failure> ::
                  && Reported(io, wgRestartPending, config.server.bgpEnabled, failure, result.Errors(), old(log), log)
                  && (if io.running && io.reloaded && !wgRestartPending
                      then Moved(old(host.kernel), host.kernel, io.stillUp, failure, old(Applied(live.before)),
                          Desired(live))
                      else host.kernel == old(host.kernel))
      ensures forall rules, routes ::
                result.Kept() && io.running && io.reloaded && io.stillUp && !wgRestartPending
                && NoFaults(host.env) && old(InStep(rules, routes))
                && Movable(old(Applied(live.before)), Desired(live), rules, routes) ==>
                InStep(rules, routes)
    {
      hide Sane;
      hide Moved;
      hide Movable;
      hide SameInterface;
      hide FileFollows;
      hide InStep;
      hide WithGatewayTables;
      hide NeverWhilePending;
      hide Reported;
      hide FlagExact;
      hide Transacted;
      result := Persist(mutate, valid, io);
      if result != Saved {
        return;
      }
      var errors, failure := ApplyLive(io, live);
      NothingReported(io, wgRestartPending, config.server.bgpEnabled, failure, old(log), log);
      result := if errors == [] then Saved else ApplyFailed(errors);
      assert result.Errors() == errors;
    }

    /** Takes over newer handshake times and changed counters, in memory only. */
    method RecordPeerStats(stats: map<string, Stats>)
      requires Valid()
      modifies this`config, this`statsDirty
      ensures Valid()
      ensures config == old(config).(entries := Recorded(old(config).entries, stats))
      ensures SameButStats(old(config), config)
      ensures statsDirty <==> old(statsDirty) || config != old(config)
      ensures Memory() == RecordStep(old(Memory()), stats)
      ensures |config.entries| == |old(config).entries|
      ensures forall i :: 0 <= i < |config.entries| ==> TakesOver(old(config).entries[i], config.entries[i], stats)
    {
      hide Sane;
      hide SameInterface;
      hide TakesOver;
      var before := config.entries;
      for i := 0 to |before|
        invariant |config.entries| == |before| && config.(entries := before) == old(config)
        invariant forall j :: 0 <= j < i ==> config.entries[j] == RecordedOne(before[j], stats)
        invariant forall j :: i <= j < |before| ==> config.entries[j] == before[j]
        invariant statsDirty <==> old(statsDirty) || exists j :: 0 <= j < i && config.entries[j] != before[j]
      {
        var peer := config.entries[i];
        if peer.publicKey in stats {
          var stat := stats[peer.publicKey];
          if stat.lastSeen != 0 && stat.lastSeen > peer.stats.lastSeen {
            peer := peer.(stats := peer.stats.(lastSeen := stat.lastSeen));
            statsDirty := true;
          }
          if stat.rx != peer.stats.rx || stat.tx != peer.stats.tx {
            peer := peer.(stats := peer.stats.(rx := stat.rx, tx := stat.tx));
            statsDirty := true;
          }
          config := config.(entries := config.entries[i := peer]);
        }
      }
      assert config.entries == Recorded(before, stats);
      RecordedTakesOver(before, stats);
    }

    /** Saves waiting statistics. */
    method SaveStats(saved: bool) returns (ok: bool)
      requires Valid()
      modifies this`yaml, this`diverged, this`statsDirty
      ensures Valid()
      ensures ok <==> !old(statsDirty) || saved
      ensures Memory() == SaveStep(old(Memory()), saved)
      ensures if old(statsDirty) && saved then !statsDirty && yaml == Some(config)
              else statsDirty == old(statsDirty) && yaml == old(yaml) && diverged == old(diverged)
    {
      if !statsDirty {
        return true;
      }
      if !saved {
        return false;
      }
      SaveYAML();
      statsDirty := false;
      ok := true;
    }

    /** Retries the desired BGP state; an enabled BGP waits for the restart. */
    method ReapplyBGP(configured: bool) returns (ok: bool)
      requires Valid()
      modifies this`log
      ensures Valid()
      ensures if wgRestartPending && config.server.bgpEnabled then !ok && log == old(log)
              else ok == configured && log == old(log) + [ConfiguredBgp(config.server.bgpEnabled, wgRestartPending)]
    {
      if wgRestartPending && config.server.bgpEnabled {
        return false;
      }
      log := log + [ConfiguredBgp(config.server.bgpEnabled, wgRestartPending)];
      ok := configured;
    }

    /** Renders wg0.conf again and converges the live routing state to it. */
    method ReapplyRouting(rendered: bool, interfaceUp: bool, live: Live) returns (ok: bool)
      requires Valid()
      modifies this`routingState, this`routingNets, this`routingBypass, this`log, host
      ensures Valid()
      ensures ok ==> !wgRestartPending && rendered && SameApplied(Applied([]), Desired(live))
      ensures !ok ==> SameApplied(old(Applied([])), Applied([]))
      ensures wgRestartPending || !rendered ==> !ok && host.kernel == old(host.kernel) && log == old(log)
      ensures forall rules, routes ::
                !wgRestartPending && rendered && interfaceUp && NoFaults(host.env) && old(InStep(rules, routes))
                && Movable(old(Applied(live.before)), Desired(live), rules, routes) ==>
                ok && InStep(rules, routes)
    {
      hide Sane;
      hide Moved;
      hide Movable;
      hide SameInterface;
      hide SameButStats;
      hide Holds;
      if wgRestartPending || !rendered {
        return false;
      }
      var failure := ConvergeRouting(interfaceUp, live);
      ok := failure == None;
    }

    /** wg-quick has installed the complete current configuration: nothing is pending any more. */
    method MarkWireGuardRestarted(live: Live)
      requires Valid()
      modifies this`wgRestartPending, this`wgAppliedServer, this`wgHasApplied,
               this`routingState, this`routingNets, this`routingBypass
      ensures Valid() && !wgRestartPending && wgHasApplied && wgAppliedServer == config.server
      ensures SameApplied(Applied([]), Desired(live))
      ensures forall rules, routes :: Holds(host.kernel, Desired(live), rules, routes) ==>
                InStep(rules, routes)
    {
      hide Sane;
      wgRestartPending, wgAppliedServer, wgHasApplied := false, config.server, true;
      routingState, routingNets, routingBypass := config, live.nets, live.bypass;
      SameInterfaceIsEquivalence(config.server, config.server, config.server);
      forall rules, routes | Holds(host.kernel, Desired(live), rules, routes)
        ensures InStep(rules, routes)
      {
        AnyOrder(host.kernel, Desired(live), rules, routes);
      }
    }
  }

  /** The dirty flag does not mean that the file is out of date: a counter that goes up and back down
      leaves it set although memory and file are equal. */
  method DirtyButCurrent(host: Host, e: Entry, c: AppConfig) returns (store: Store)
    requires Sane(host.kernel) && c.entries == [e]
    ensures store.Valid() && store.statsDirty && store.yaml == Some(store.config)
  {
    var loaded := Store.Load(Parsed(c), c, true, [], host);
    store := loaded;
    assert store.config.entries == [e];
    var s := store.config.entries[0].stats;
    store.RecordPeerStats(map[e.publicKey := s.(rx := s.rx + 1)]);
    assert store.config.entries[0].stats == s.(rx := s.rx + 1);
    assert store.statsDirty;
    store.RecordPeerStats(map[e.publicKey := s]);
    assert store.config.entries[0] == e;
    assert store.config.entries == [e];
  }

  /** The errors of the live half of a write, and what it did to the live system: routing is touched
      only with wg0 up, reloaded and no restart pending; an enabled BGP likewise, while a disabled one
      is always stopped. */
  ghost predicate Reported(io: Io, pending: bool, bgpEnabled: bool, failure: Option<Failure>, errors: seq<ApplyError>,
                           before: seq<Action>, after: seq<Action>) {
    var attempt := io.running && io.reloaded && !pending;
    var bgp := !bgpEnabled || attempt;
    && (forall e :: e in errors <==>
          match e
          case ReloadFailed => !io.reloaded
          case InterfaceDown => io.reloaded && !io.running
          case RestartNeeded => io.reloaded && io.running && pending
          case RoutingFailed => attempt && failure.Some?
          case BgpFailed => bgp && !io.bgp)
    && after == before + (if attempt then [Reconciled(false)] else [])
       + (if bgp then [ConfiguredBgp(bgpEnabled, pending)] else [])
  }

  lemma NothingReported(io: Io, pending: bool, bgpEnabled: bool, failure: Option<Failure>, before: seq<Action>,
                        after: seq<Action>)
    ensures Reported(io, pending, bgpEnabled, failure, [], before, after) ==>
              io.running && io.reloaded && !pending && failure == None && io.bgp
  {
    var errors: seq<ApplyError> := [];
    assert ReloadFailed !in errors && InterfaceDown !in errors && RestartNeeded !in errors
           && RoutingFailed !in errors && BgpFailed !in errors;
  }

  lemma Unchanged(c: AppConfig)
    ensures SameButStats(c, c)
  {
  }

  /** What a transaction is about: memory, the restart flag, the file, and the two flags about it. */
  datatype Persistent = Persistent(config: AppConfig, pending: bool, dirty: bool, yaml: Option<AppConfig>,
      diverged: bool)

  /** Recording statistics, as a step of that state: only memory changes, and the dirty flag is set by
      every change. */
  ghost function RecordStep(m: Persistent, stats: map<string, Stats>): Persistent {
    var entries := Recorded(m.config.entries, stats);
    m.(config := m.config.(entries := entries), dirty := m.dirty || entries != m.config.entries)
  }

  /** Saving what waits to be saved. */
  ghost function SaveStep(m: Persistent, saved: bool): Persistent {
    if m.dirty && saved then m.(dirty := false, yaml := Some(m.config), diverged := false) else m
  }

  /** All or nothing. A write that gets through leaves the new, valid configuration in memory and in
      the file alike. One that is refused, fails validation or cannot be saved changes nothing at
      all. One that cannot be rendered leaves memory and flag as they were, and the file too unless
      even the restore fails. */
  ghost predicate Transacted(m: Persistent, m': Persistent, edited: (AppConfig, bool), valid: AppConfig -> bool,
                             io: Io) {
    var stage := Progress(edited, valid, io);
    var next := WithGatewayTables(edited.0);
    && (stage == Saved ==> m' == Persistent(next, m'.pending, false, Some(next), false) && valid(next))
    && (stage in {MutationFailed, Invalid, SaveFailed} ==> m' == m)
    && (stage.RenderFailed? ==>
          m' == Persistent(m.config, m.pending, false, Some(if io.restored then m.config else next), !io.restored))
  }

  /** How far a write gets: the first stage that fails, if any. */
  ghost function Progress(edited: (AppConfig, bool), valid: AppConfig -> bool, io: Io): WriteResult {
    if !edited.1 then MutationFailed
    else if !valid(WithGatewayTables(edited.0)) then Invalid
    else if !io.saved then SaveFailed
    else if !io.rendered then RenderFailed(io.restored)
    else Saved
  }

  /** The same state, whatever the order of the exit nodes. */
  ghost predicate SameApplied(a: Inputs, b: Inputs) {
    a.(exitOrder := []) == b.(exitOrder := [])
  }

  ghost function RecordedOne(e: Entry, stats: map<string, Stats>): Entry {
    if e.publicKey !in stats then e
    else
      var s := stats[e.publicKey];
      e.(stats := Stats(if s.lastSeen > e.stats.lastSeen then s.lastSeen else e.stats.lastSeen, s.rx, s.tx))
  }

  /** A peer in the snapshot gets its counters from there and the later of the two handshakes, and
      nothing else about it changes; a peer that is not in it stays as it is. */
  ghost predicate TakesOver(e: Entry, e': Entry, stats: map<string, Stats>) {
    if e.publicKey !in stats then e' == e
    else
      var s := stats[e.publicKey];
      && e' == e.(stats := e'.stats) && e'.stats.rx == s.rx && e'.stats.tx == s.tx
      && e'.stats.lastSeen >= s.lastSeen && e'.stats.lastSeen >= e.stats.lastSeen
      && (e'.stats.lastSeen == s.lastSeen || e'.stats.lastSeen == e.stats.lastSeen)
  }

  lemma RecordedTakesOver(entries: seq<Entry>, stats: map<string, Stats>)
    ensures forall i :: 0 <= i < |entries| ==> TakesOver(entries[i], Recorded(entries, stats)[i], stats)
  {
  }

  ghost function Recorded(entries: seq<Entry>, stats: map<string, Stats>): (r: seq<Entry>)
    ensures |r| == |entries|
  {
    seq(|entries|, i requires 0 <= i < |entries| => RecordedOne(entries[i], stats))
  }

  lemma Exact(k: Kernel, prev: Inputs, next: Inputs, rules: map<Slot, seq<RuleBody>>, routes: map<RouteKey, Hop>,
              env: nat -> Outcome, t: nat)
    requires Sane(k) && NoFaults(env) && Movable(prev, next, rules, routes)
             && Holds(k, prev.(exitOrder := []), rules, routes)
    ensures var r := Run(k, ReconcileCmds(prev, next), env, t);
            r.ok && Holds(r.Final(), next.(exitOrder := []), rules, routes)
  {
    hide Run;
    hide ReconcileCmds;
    hide Convergence.Valid;
    hide ForeignTo;
    AnyOrder(k, prev, rules, routes);
    ReconcileConverges(k, prev, next, rules, routes, env, t, V4);
    AnyOrder(Run(k, ReconcileCmds(prev, next), env, t).Final(), next, rules, routes);
  }

  /** The state a configuration describes does not depend on the order its exit nodes come in. */
  lemma AnyOrder(k: Kernel, inp: Inputs, rules: map<Slot, seq<RuleBody>>, routes: map<RouteKey, Hop>)
    ensures Holds(k, inp, rules, routes) <==> Holds(k, inp.(exitOrder := []), rules, routes)
  {
  }

  /** What may be assumed of two states between which a fault-free Reconcile is exact. */
  ghost predicate Movable(prev: Inputs, next: Inputs, rules: map<Slot, seq<RuleBody>>, routes: map<RouteKey, Hop>) {
    && Convergence.Valid(prev) && Convergence.Valid(next)
    && ForeignTo(rules, routes, prev) && ForeignTo(rules, routes, next)
  }

  /** What a Reconcile did to the kernel, whatever it returned. */
  ghost predicate Moved(k: Kernel, k': Kernel, interfaceUp: bool, failure: Option<Failure>, prev: Inputs,
                        next: Inputs) {
    var sources := Affected(prev.cfg, next.cfg);
    && (!interfaceUp ==> failure == None && k' == k)
    && (interfaceUp ==> GuardsConserved(k, k', sources))
    && (interfaceUp && failure.Some? && failure.value in {RemovingPrevious, UpdatingChains, InstallingNew} ==>
          RejectsProtected(k', sources, next))
  }
}
