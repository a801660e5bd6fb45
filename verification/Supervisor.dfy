/** The ZeroTier supervisor: configuration, restarts, crashes and the polling loop interleave at the
    points where the lock is released, and no configuration is lost. */
module Supervision {
  import opened Lists

  /** What a network may do to the host. */
  datatype Flags = Flags(managed: bool, global: bool, defaultRoute: bool, dns: bool)

  datatype Network = Network(id: string, flags: Flags)

  datatype ZtConfig = ZtConfig(enabled: bool, port: nat, networks: seq<Network>)

  // ---------------------------------------------------------------- joining and leaving networks

  function LowerChar(c: char): char {
    if 'A' <= c <= 'Z' then (c as int - 'A' as int + 'a' as int) as char else c
  }

  function Lower(id: string): string {
    seq(|id|, i requires 0 <= i < |id| => LowerChar(id[i]))
  }

  /** The case of the hexadecimal digits does not matter. */
  lemma SpellingDoesNotMatter(a: string, b: string)
    requires |a| == |b|
    requires forall i :: 0 <= i < |a| ==>
               a[i] == b[i] || ('a' <= a[i] <= 'z' && b[i] as int + 32 == a[i] as int)
               || ('a' <= b[i] <= 'z' && a[i] as int + 32 == b[i] as int)
    ensures Lower(a) == Lower(b)
  {
  }

  /** The networks a daemon is joined to, by lower-case ID, with the flags of each. */
  type Membership = map<string, Flags>

  /** What a configuration asks for: of two entries for one network the later one counts. */
  function Wanted(networks: seq<Network>): Membership {
    if networks == [] then map[]
    else
      var n := networks[|networks| - 1];
      Wanted(networks[..|networks| - 1])[Lower(n.id) := n.flags]
  }

  function Ids(names: seq<string>): set<string> {
    set n | n in names :: Lower(n)
  }

  /** How a call to the daemon ends: whether it took effect, and whether the caller hears so. */
  datatype Reply = Reply(took: bool, ok: bool)

  /** The daemon's networks, and every membership they went through. */
  class Service {
    var joined: Membership
    var calls: nat
    const env: nat -> Reply
    ghost var trace: seq<Membership>

    constructor (joined: Membership, env: nat -> Reply)
      ensures this.joined == joined && this.env == env && trace == []
    {
      this.joined, this.env, calls, trace := joined, env, 0, [];
    }

    /** Joins a network, or brings its flags up to date. */
    method Join(n: Network) returns (ok: bool)
      modifies this
      ensures joined == old(joined)[Lower(n.id) := n.flags] || (!ok && joined == old(joined))
      ensures trace == old(trace) + [joined]
    {
      var reply := env(calls);
      calls := calls + 1;
      if reply.ok || reply.took {
        joined := joined[Lower(n.id) := n.flags];
      }
      trace := trace + [joined];
      ok := reply.ok;
    }

    method Leave(id: string) returns (ok: bool)
      modifies this
      ensures joined == old(joined) - {Lower(id)} || (!ok && joined == old(joined))
      ensures trace == old(trace) + [joined]
    {
      var reply := env(calls);
      calls := calls + 1;
      if reply.ok || reply.took {
        joined := joined - {Lower(id)};
      }
      trace := trace + [joined];
      ok := reply.ok;
    }
  }

  /** Some entry gives this network these flags. */
  ghost predicate Configures(networks: seq<Network>, id: string, flags: Flags) {
    exists n :: n in networks && Lower(n.id) == id && n.flags == flags
  }

  /** No wanted network is lost, and every network is as it was before or as an entry has it. */
  ghost predicate Between(s: Membership, before: Membership, networks: seq<Network>) {
    && (forall id :: id in before && id in Wanted(networks) ==> id in s)
    && (forall id :: id in s ==> (id in before && s[id] == before[id]) || Configures(networks, id, s[id]))
  }

  ghost predicate Careful(trace: seq<Membership>, before: Membership, networks: seq<Network>) {
    forall s :: s in trace ==> Between(s, before, networks)
  }

  lemma {:induction false} WantedAt(networks: seq<Network>)
    ensures forall id :: id in Wanted(networks) ==> Configures(networks, id, Wanted(networks)[id])
    ensures forall n :: n in networks ==> Lower(n.id) in Wanted(networks)
  {
    hide Lower;
    if networks != [] {
      var init, last := networks[..|networks| - 1], networks[|networks| - 1];
      assert networks == init + [last];
      WantedAt(init);
      forall id | id in Wanted(networks)
        ensures Configures(networks, id, Wanted(networks)[id])
      {
        if id == Lower(last.id) {
          assert last in networks;
        } else {
          assert id in Wanted(init) && Wanted(init)[id] == Wanted(networks)[id];
          assert Configures(init, id, Wanted(init)[id]);
          var n :| n in init && Lower(n.id) == id && n.flags == Wanted(init)[id];
          assert n in networks;
        }
      }
    }
  }

  /** While joining, the membership is the old one overridden by the entries so far. */
  lemma JoiningBetween(before: Membership, networks: seq<Network>, i: nat)
    requires i <= |networks|
    ensures Between(before + Wanted(networks[..i]), before, networks)
  {
    var seen := networks[..i];
    WantedAt(seen);
    forall id | id in Wanted(seen)
      ensures Configures(networks, id, Wanted(seen)[id])
    {
      var n :| n in seen && Lower(n.id) == id && n.flags == Wanted(seen)[id];
      assert n in networks;
    }
  }

  /** While leaving, only unwanted networks go. */
  lemma KeptBetween(before: Membership, networks: seq<Network>, gone: set<string>)
    ensures Between(Kept(before, networks, gone), before, networks)
  {
    WantedAt(networks);
  }

  lemma WantedStep(networks: seq<Network>, i: nat)
    requires i < |networks|
    ensures Wanted(networks[..i + 1]) == Wanted(networks[..i])[Lower(networks[i].id) := networks[i].flags]
  {
    assert networks[..i + 1][..i] == networks[..i];
  }

  /** Joins every configured network and leaves the rest, stopping at the first failure. listed is
      what the daemon reported, in its own spelling. When it completes, exactly the configured networks
      are joined, with exactly the configured flags; whenever it stops, no wanted network was left on
      the way and none had flags of its own making. */
  method ReconcileNetworks(service: Service, listed: Option<seq<string>>, networks: seq<Network>) returns (ok: bool)
    requires listed.Some? ==> Ids(listed.value) == service.joined.Keys
    modifies service
    ensures ok ==> service.joined == Wanted(networks)
    ensures old(service.trace) <= service.trace
    ensures Careful(service.trace[|old(service.trace)|..], old(service.joined), networks)
    ensures Between(service.joined, old(service.joined), networks)
  {
    ghost var before, past := service.joined, service.trace;
    JoiningBetween(before, networks, 0);
    assert before + Wanted(networks[..0]) == before;
    if listed == None {
      return false;
    }
    ok := JoinAll(service, networks);
    if !ok {
      return;
    }
    assert networks[..|networks|] == networks;
    ghost var joining := service.trace;
    ok := LeaveOthers(service, listed.value, networks, before);
    assert service.trace[|past|..] == joining[|past|..] + service.trace[|joining|..];
    if ok {
      OnlyWanted(before, Wanted(networks));
    }
  }

  lemma OnlyWanted(before: Membership, wanted: Membership)
    ensures (before + wanted) - (before.Keys - wanted.Keys) == wanted
  {
  }

  /** The first loop: every network of the configuration, those already joined included. */
  method JoinAll(service: Service, networks: seq<Network>) returns (ok: bool)
    modifies service
    ensures ok ==> service.joined == old(service.joined) + Wanted(networks)
    ensures old(service.trace) <= service.trace
    ensures Careful(service.trace[|old(service.trace)|..], old(service.joined), networks)
    ensures Between(service.joined, old(service.joined), networks)
  {
    hide Between;
    ghost var before, past := service.joined, service.trace;
    JoiningBetween(before, networks, 0);
    assert before + Wanted(networks[..0]) == before;
    for i := 0 to |networks|
      invariant past <= service.trace && service.joined == before + Wanted(networks[..i])
      invariant Careful(service.trace[|past|..], before, networks)
    {
      JoiningBetween(before, networks, i);
      JoiningBetween(before, networks, i + 1);
      WantedStep(networks, i);
      ghost var done := service.trace;
      ok := service.Join(networks[i]);
      assert (before + Wanted(networks[..i]))[Lower(networks[i].id) := networks[i].flags] == before
          + Wanted(networks[..i + 1]);
      assert service.trace[|past|..] == done[|past|..] + [service.joined];
      if !ok {
        return;
      }
    }
    assert networks[..|networks|] == networks;
    JoiningBetween(before, networks, |networks|);
    ok := true;
  }

  /** What is left once the unwanted ones among these have been left. */
  ghost function Kept(before: Membership, networks: seq<Network>, gone: set<string>): Membership {
    (before + Wanted(networks)) - (gone - Wanted(networks).Keys)
  }

  lemma LeaveStep(before: Membership, networks: seq<Network>, names: seq<string>, i: nat)
    requires i < |names|
    ensures var now, then' := Kept(before, networks, Ids(names[..i])), Kept(before, networks, Ids(names[..i + 1]));
            then' == if Lower(names[i]) in Wanted(networks) then now else now - {Lower(names[i])}
  {
    hide Wanted;
    assert names[..i + 1] == names[..i] + [names[i]];
    assert Ids(names[..i + 1]) == Ids(names[..i]) + {Lower(names[i])};
  }

  lemma NothingLeft(before: Membership, networks: seq<Network>, names: seq<string>)
    ensures Kept(before, networks, Ids(names[..0])) == before + Wanted(networks)
  {
    hide Wanted;
  }

  /** The second loop: the listed networks that are not wanted. */
  method LeaveOthers(service: Service, names: seq<string>, networks: seq<Network>, ghost before: Membership)
    returns (ok: bool)
    requires service.joined == before + Wanted(networks)
    modifies service
    ensures ok ==> service.joined == Kept(before, networks, Ids(names))
    ensures old(service.trace) <= service.trace
    ensures Careful(service.trace[|old(service.trace)|..], before, networks)
    ensures Between(service.joined, before, networks)
  {
    hide Between;
    hide Wanted;
    hide Kept;
    hide Ids;
    hide Lower;
    ghost var past := service.trace;
    var wanted := Wanted(networks);
    NothingLeft(before, networks, names);
    for i := 0 to |names|
      invariant past <= service.trace && Careful(service.trace[|past|..], before, networks)
      invariant service.joined == Kept(before, networks, Ids(names[..i]))
    {
      KeptBetween(before, networks, Ids(names[..i]));
      KeptBetween(before, networks, Ids(names[..i + 1]));
      LeaveStep(before, networks, names, i);
      if Lower(names[i]) !in wanted {
        ghost var done := service.trace;
        ok := service.Leave(names[i]);
        assert service.trace[|past|..] == done[|past|..] + [service.joined];
        if !ok {
          return;
        }
      }
    }
    assert names[..|names|] == names;
    KeptBetween(before, networks, Ids(names));
    ok := true;
  }

  // ---------------------------------------------------------------- the state machine

  /** A running daemon: which one, and the port it was started with. */
  datatype Daemon = Daemon(id: nat, port: nat)

  /** Where the polling loop is between two of its locked sections, and what it remembers there. */
  datatype Pc =
    | Idle
    | Captured(cfg: ZtConfig, gen: nat)
    | PortStopped(cfg: ZtConfig, gen: nat)
    | Ensured(cfg: ZtConfig, gen: nat)
    | Ready(cfg: ZtConfig, gen: nat, daemon: Daemon)
    | Completed(cfg: ZtConfig, gen: nat, daemon: Daemon)

  /** The supervisor's fields, the loop, the restarts that have let go of the lock, and the networks
      each daemon process is joined to. */
  datatype State = State(
    desired: ZtConfig,
    gen: nat,
    appliedG: nat,
    attached: Option<Daemon>,
    exited: bool,
    pc: Pc,
    restarts: nat,
    nextId: nat,
    joined: map<nat, Membership>)

  const INITIAL := State(ZtConfig(false, 0, []), 0, 0, None, false, Idle, 0, 0, map[])

  /** One locked section of one of the concurrent activities, or a call to the daemon. */
  datatype Event =
    | Configure(cfg: ZtConfig)
    | RestartStop
    | RestartReset
    | ProcessExit
    | Capture
    | StopDisabled
    | EnsureRunning(start: Option<Membership>)
    | StartAfterStop(start: Option<Membership>)
    | Look
    | GiveUp
    | ReconcileDone
    | ReconcileFailed(partial: Membership)
    | Record

  ghost predicate Enabled(s: State, e: Event) {
    match e
    case Configure(_) => true
    case RestartStop => s.desired.enabled
    case RestartReset => s.restarts > 0
    case ProcessExit => s.attached.Some?
    case Capture => s.pc.Idle?
    case StopDisabled => s.pc.Captured? && !s.pc.cfg.enabled
    case EnsureRunning(_) => s.pc.Captured? && s.pc.cfg.enabled
    case StartAfterStop(_) => s.pc.PortStopped?
    case Look => s.pc.Ensured?
    case GiveUp => s.pc.Ready?
    case ReconcileDone => s.pc.Ready?
    case ReconcileFailed(partial) =>
      s.pc.Ready? && s.pc.daemon.id in s.joined && Between(partial, s.joined[s.pc.daemon.id], s.pc.cfg.networks)
    case Record => s.pc.Completed?
  }

  function Detached(s: State): State {
    s.(attached := None, exited := false)
  }

  /** Starting a daemon, which remembers some networks from before, or failing to. */
  function Started(s: State, cfg: ZtConfig, gen: nat, start: Option<Membership>): State {
    if start == None then s.(pc := Idle)
    else s.(attached := Some(Daemon(s.nextId, cfg.port)), exited := false, appliedG := 0, nextId := s.nextId + 1,
            joined := s.joined[s.nextId := start.value], pc := Ensured(cfg, gen))
  }

  function Next(s: State, e: Event): State
    requires Enabled(s, e)
  {
    match e
    case Configure(cfg) => s.(desired := cfg, gen := s.gen + 1)
    case RestartStop => Detached(s).(restarts := s.restarts + 1)
    case RestartReset => s.(appliedG := 0, restarts := s.restarts - 1)
    case ProcessExit => s.(exited := true)
    case Capture => s.(pc := Captured(s.desired, s.gen))
    case StopDisabled => Detached(s).(pc := Idle)
    case EnsureRunning(start) =>
      var (cfg, gen) := (s.pc.cfg, s.pc.gen);
      if s.attached.Some? && s.exited then Started(Detached(s), cfg, gen, start)
      else if s.attached.Some? && s.attached.value.port != cfg.port then Detached(s).(pc := PortStopped(cfg, gen))
      else if s.attached.Some? then s.(pc := Ensured(cfg, gen))
      else Started(s, cfg, gen, start)
    case StartAfterStop(start) => Started(s.(appliedG := 0), s.pc.cfg, s.pc.gen, start)
    case Look =>
      if s.attached.Some? && s.appliedG != s.pc.gen then s.(pc := Ready(s.pc.cfg, s.pc.gen, s.attached.value))
      else s.(pc := Idle)
    case GiveUp => s.(pc := Idle)
    case ReconcileDone =>
      s.(joined := s.joined[s.pc.daemon.id := Wanted(s.pc.cfg.networks)],
          pc := Completed(s.pc.cfg, s.pc.gen, s.pc.daemon))
    case ReconcileFailed(partial) => s.(joined := s.joined[s.pc.daemon.id := partial], pc := Idle)
    case Record => s.(appliedG := s.pc.gen, pc := Idle)
  }

  /** Nothing is lost: while a daemon is attached and its generation counts as applied, it is joined
      to exactly the networks configured now, each with the flags configured now. */
  ghost predicate NothingLost(s: State) {
    s.attached.Some? && s.appliedG == s.gen ==>
      s.attached.value.id in s.joined && s.joined[s.attached.value.id] == Wanted(s.desired.networks)
  }

  /** What the loop captured is not newer than the present, and the same if it is not older. */
  ghost predicate Remembers(s: State, cfg: ZtConfig, gen: nat) {
    && gen <= s.gen && s.appliedG <= gen && (gen == s.gen ==> cfg == s.desired) && (cfg.enabled ==> gen > 0)
  }

  /** The loop talks to the attached daemon, unless that one has been detached meanwhile. */
  ghost predicate TalksTo(s: State, d: Daemon) {
    d.id in s.joined && d.id < s.nextId && (s.attached.Some? ==> s.attached.value == d)
  }

  ghost predicate LoopConsistent(s: State) {
    match s.pc
    case Idle => true
    case Captured(cfg, gen) => Remembers(s, cfg, gen)
    case PortStopped(cfg, gen) => Remembers(s, cfg, gen) && cfg.enabled && s.attached == None
    case Ensured(cfg, gen) => Remembers(s, cfg, gen) && cfg.enabled
    case Ready(cfg, gen, d) => Remembers(s, cfg, gen) && cfg.enabled && TalksTo(s, d) && s.appliedG < gen
    case Completed(cfg, gen, d) =>
      Remembers(s, cfg, gen) && cfg.enabled && TalksTo(s, d) && s.appliedG < gen
          && s.joined[d.id] == Wanted(cfg.networks)
  }

  ghost predicate Inv(s: State) {
    && NothingLost(s) && LoopConsistent(s) && s.appliedG <= s.gen
    && (s.desired.enabled ==> s.gen > 0)
    && (s.attached.Some? ==> s.gen > 0 && s.attached.value.id in s.joined && s.attached.value.id < s.nextId)
  }

  lemma StepKeepsInv(s: State, e: Event)
    requires Inv(s) && Enabled(s, e)
    ensures Inv(Next(s, e))
  {
  }

  ghost predicate Run(s: State, events: seq<Event>)
    decreases |events|
  {
    events == [] || (Enabled(s, events[0]) && Run(Next(s, events[0]), events[1..]))
  }

  ghost function After(s: State, events: seq<Event>): State
    requires Run(s, events)
    decreases |events|
  {
    if events == [] then s else After(Next(s, events[0]), events[1..])
  }

  /** No interleaving of configurations, restarts, crashes, port changes and polls loses one. */
  lemma {:induction false} NothingEverLost(s: State, events: seq<Event>)
    requires Inv(s) && Run(s, events)
    ensures Inv(After(s, events)) && NothingLost(After(s, events))
    decreases |events|
  {
    if events != [] {
      StepKeepsInv(s, events[0]);
      NothingEverLost(Next(s, events[0]), events[1..]);
    }
  }

  lemma FromTheStart(events: seq<Event>)
    requires Run(INITIAL, events)
    ensures NothingLost(After(INITIAL, events))
  {
    NothingEverLost(INITIAL, events);
  }

  lemma RunCons(s: State, e: Event, rest: seq<Event>)
    requires Enabled(s, e) && Run(Next(s, e), rest)
    ensures Run(s, [e] + rest) && After(s, [e] + rest) == After(Next(s, e), rest)
  {
    assert ([e] + rest)[0] == e && ([e] + rest)[1..] == rest;
  }

  /** The sections of one poll in which every call succeeds; a daemon that has to be started comes up
      with the networks it remembers. */
  ghost function Poll(s: State, remembered: Membership): seq<Event> {
    var daemon := s.attached.Some? && !s.exited;
    var stopped := daemon && s.attached.value.port != s.desired.port;
    [Capture] + ([EnsureRunning(Some(remembered))] + ((if stopped then [StartAfterStop(Some(remembered))] else [])
      + ([Look] + (if daemon && !stopped && s.appliedG == s.gen then [] else [ReconcileDone, Record]))))
  }

  /** The current configuration is in force. */
  ghost predicate InForce(s: State) {
    && s.attached.Some? && !s.exited && s.attached.value.port == s.desired.port && s.appliedG == s.gen
    && s.attached.value.id in s.joined && s.joined[s.attached.value.id] == Wanted(s.desired.networks)
  }

  /** The end of a poll: look at the generation, reconcile if it is not applied. */
  lemma FinishPoll(s: State, cfg: ZtConfig, gen: nat)
    requires Inv(s) && s.pc == Ensured(cfg, gen) && cfg == s.desired && gen == s.gen
    requires s.attached.Some? && !s.exited && s.attached.value.port == cfg.port
    ensures var tail := [Look] + (if s.appliedG == s.gen then [] else [ReconcileDone, Record]);
            Run(s, tail) && InForce(After(s, tail)) && After(s, tail).pc.Idle?
            && After(s, tail).desired == s.desired && After(s, tail).gen == s.gen
  {
    var s1 := Next(s, Look);
    if s.appliedG == s.gen {
      RunCons(s, Look, []);
    } else {
      var s2 := Next(s1, ReconcileDone);
      RunCons(s2, Record, []);
      RunCons(s1, ReconcileDone, [Record]);
      assert [ReconcileDone] + [Record] == [ReconcileDone, Record] && [Record] + [] == [Record];
      RunCons(s, Look, [ReconcileDone, Record]);
    }
  }

  /** From any reachable state between polls, one undisturbed poll puts the current configuration in
      force, whatever was configured, restarted or lost before. */
  lemma PollConverges(s: State, remembered: Membership)
    requires Inv(s) && s.pc.Idle? && s.desired.enabled
    ensures Run(s, Poll(s, remembered)) && InForce(After(s, Poll(s, remembered)))
  {
    var start := Some(remembered);
    var s1 := Next(s, Capture);
    var s2 := Next(s1, EnsureRunning(start));
    StepKeepsInv(s, Capture);
    StepKeepsInv(s1, EnsureRunning(start));
    var daemon := s.attached.Some? && !s.exited;
    var tail := [Look] + (if daemon && s.attached.value.port == s.desired.port && s.appliedG == s.gen then []
        else [ReconcileDone, Record]);
    if daemon && s.attached.value.port != s.desired.port {
      var s3 := Next(s2, StartAfterStop(start));
      StepKeepsInv(s2, StartAfterStop(start));
      FinishPoll(s3, s.desired, s.gen);
      RunCons(s2, StartAfterStop(start), tail);
      RunCons(s1, EnsureRunning(start), [StartAfterStop(start)] + tail);
      RunCons(s, Capture, [EnsureRunning(start)] + ([StartAfterStop(start)] + tail));
    } else {
      FinishPoll(s2, s.desired, s.gen);
      assert [] + tail == tail;
      RunCons(s1, EnsureRunning(start), tail);
      RunCons(s, Capture, [EnsureRunning(start)] + tail);
    }
  }

  /** Only daemons from number n on are or can still be attached. */
  ghost predicate OnlyNewer(s: State, n: nat) {
    s.nextId >= n && (s.attached.Some? ==> s.attached.value.id >= n)
  }

  lemma {:induction false} StaysNewer(s: State, events: seq<Event>, n: nat)
    requires Run(s, events) && OnlyNewer(s, n)
    ensures OnlyNewer(After(s, events), n)
    decreases |events|
  {
    if events != [] {
      StaysNewer(Next(s, events[0]), events[1..], n);
    }
  }

  /** A restart replaces the daemon: it detaches whatever runs, and however it interleaves with polls,
      crashes and configurations from then on, no daemon started before the call is attached again. So
      the configuration is next in force on a daemon newer than the call. */
  lemma RestartReplaces(s: State, events: seq<Event>)
    requires Inv(s) && Enabled(s, RestartStop) && Run(s, [RestartStop] + events)
    ensures s.attached.Some? ==> s.attached.value.id < s.nextId
    ensures After(s, [RestartStop]).attached == None
    ensures var t := After(s, [RestartStop] + events); t.attached.Some? ==> t.attached.value.id >= s.nextId
  {
    var all := [RestartStop] + events;
    assert all[0] == RestartStop && all[1..] == events;
    assert [RestartStop][1..] == [];
    StaysNewer(Next(s, RestartStop), events, s.nextId);
  }

  /** A restart also makes the networks be joined again: nothing counts as applied once the restart has
      had its second section. */
  lemma RestartReconciles(s: State, remembered: Membership)
    requires Inv(s) && Enabled(s, RestartStop) && s.pc.Idle?
    ensures Run(s, [RestartStop, RestartReset])
    ensures var t := After(s, [RestartStop, RestartReset]);
            t.attached == None && t.appliedG == 0 && t.restarts == s.restarts
            && Run(t, Poll(t, remembered)) && InForce(After(t, Poll(t, remembered)))
            && After(t, Poll(t, remembered)).attached.value.id >= s.nextId
  {
    var s1 := Next(s, RestartStop);
    var t := Next(s1, RestartReset);
    StepKeepsInv(s, RestartStop);
    StepKeepsInv(s1, RestartReset);
    RunCons(s1, RestartReset, []);
    assert [RestartReset] + [] == [RestartReset] && [RestartStop] + [RestartReset] == [RestartStop, RestartReset];
    RunCons(s, RestartStop, [RestartReset]);
    PollConverges(t, remembered);
    StaysNewer(t, Poll(t, remembered), s.nextId);
  }

  /** A poll with ZeroTier disabled ends with nothing attached. */
  lemma DisabledPollStops(s: State)
    requires s.pc.Idle? && !s.desired.enabled
    ensures Run(s, [Capture, StopDisabled])
    ensures var t := After(s, [Capture, StopDisabled]);
            t.attached == None && t.pc.Idle? && t.desired == s.desired && t.gen == s.gen
  {
    var s1 := Next(s, Capture);
    RunCons(s1, StopDisabled, []);
    assert [StopDisabled] + [] == [StopDisabled] && [Capture] + [StopDisabled] == [Capture, StopDisabled];
    RunCons(s, Capture, [StopDisabled]);
  }

  // ---------------------------------------------------------------- the supervisor itself

  /** The supervisor's methods, one per locked section. What the loop holds in local variables between
      two sections is in pc; each section takes it as arguments. */
  class Supervisor {
    var desired: ZtConfig
    var gen: nat
    var appliedG: nat
    var attached: Option<Daemon>
    var exited: bool
    var nextId: nat
    ghost var pc: Pc
    ghost var restarts: nat
    ghost var joined: map<nat, Membership>

    ghost function Now(): State
      reads this
    {
      State(desired, gen, appliedG, attached, exited, pc, restarts, nextId, joined)
    }

    ghost predicate Valid()
      reads this
    {
      Inv(Now())
    }

    constructor ()
      ensures Valid() && Now() == INITIAL
    {
      desired, gen, appliedG, attached, exited, nextId := ZtConfig(false, 0, []), 0, 0, None, false, 0;
      pc, restarts, joined := Idle, 0, map[];
    }

    method Configure(cfg: ZtConfig)
      requires Valid()
      modifies this
      ensures Valid() && Now() == Next(old(Now()), Event.Configure(cfg))
      ensures desired == cfg && gen == old(gen) + 1 && appliedG == old(appliedG)
      ensures attached == old(attached) && exited == old(exited) && nextId == old(nextId)
    {
      desired := cfg;
      gen := gen + 1;
    }

    /** Detaches the process; the lock is let go until it has exited. */
    method ClearProcess()
      modifies this`attached, this`exited
      ensures Now() == Detached(old(Now()))
      ensures attached == None
    {
      attached, exited := None, false;
    }

    method RestartStop() returns (ok: bool)
      requires Valid()
      modifies this
      ensures Valid() && ok == old(desired).enabled
      ensures Now() == if ok then Next(old(Now()), Event.RestartStop) else old(Now())
      ensures attached == if ok then None else old(attached)
      ensures desired == old(desired) && gen == old(gen) && appliedG == old(appliedG) && nextId == old(nextId)
    {
      if !desired.enabled {
        return false;
      }
      ClearProcess();
      restarts := restarts + 1;
      ok := true;
    }

    method RestartReset()
      requires Valid() && restarts > 0
      modifies this
      ensures Valid() && Now() == Next(old(Now()), Event.RestartReset)
      ensures appliedG == 0 && attached == old(attached) && desired == old(desired) && gen == old(gen)
    {
      appliedG := 0;
      restarts := restarts - 1;
    }

    /** The reaper: only the process that is still attached is marked. */
    method Reap(process: Daemon)
      requires Valid()
      modifies this
      ensures Valid()
      ensures Now() == if old(attached) == Some(process) then Next(old(Now()), ProcessExit) else old(Now())
      ensures exited <==> old(exited) || old(attached) == Some(process)
      ensures attached == old(attached) && appliedG == old(appliedG)
    {
      if attached == Some(process) {
        exited := true;
      }
    }

    method Capture() returns (cfg: ZtConfig, g: nat)
      requires Valid() && pc.Idle?
      modifies this
      ensures Valid() && Now() == Next(old(Now()), Event.Capture) && pc == Captured(cfg, g)
      ensures cfg == desired == old(desired) && g == gen == old(gen) && attached == old(attached)
    {
      cfg, g := desired, gen;
      pc := Captured(cfg, g);
    }

    method StopDisabled(cfg: ZtConfig, g: nat)
      requires Valid() && pc == Captured(cfg, g) && !cfg.enabled
      modifies this
      ensures Valid() && Now() == Next(old(Now()), Event.StopDisabled)
      ensures attached == None && pc == Idle && desired == old(desired) && gen == old(gen)
    {
      ClearProcess();
      pc := Idle;
    }

    /** Starts a daemon; start says whether that works and which networks it remembers. */
    method StartService(cfg: ZtConfig, g: nat, start: Option<Membership>) returns (ok: bool)
      modifies this
      ensures Now() == Started(old(Now()), cfg, g, start) && ok == start.Some?
    {
      if start == None {
        pc := Idle;
        return false;
      }
      attached, exited, appliedG := Some(Daemon(nextId, cfg.port)), false, 0;
      joined := joined[nextId := start.value];
      nextId := nextId + 1;
      pc := Ensured(cfg, g);
      ok := true;
    }

    /** Starts the service if needed. A changed port stops it first, which lets go of the lock. */
    method EnsureRunning(cfg: ZtConfig, g: nat, start: Option<Membership>) returns (stopping: bool)
      requires Valid() && pc == Captured(cfg, g) && cfg.enabled
      modifies this
      ensures Valid() && Now() == Next(old(Now()), Event.EnsureRunning(start))
              && (stopping <==> pc == PortStopped(cfg, g))
      ensures stopping <==> old(attached).Some? && !old(exited) && old(attached).value.port != cfg.port
      ensures stopping ==> attached == None
      ensures old(attached).Some? && !old(exited) && old(attached).value.port == cfg.port ==>
                attached == old(attached) && appliedG == old(appliedG) && pc == Ensured(cfg, g)
      ensures old(attached) == None || old(exited) ==>
                if start == None then attached == None && pc == Idle
                else && attached == Some(Daemon(old(nextId), cfg.port)) && !exited
                     && appliedG == 0 && pc == Ensured(cfg, g)
    {
      StepKeepsInv(Now(), Event.EnsureRunning(start));
      stopping := false;
      if attached.Some? {
        if exited {
          ClearProcess();
        } else if attached.value.port != cfg.port {
          ClearProcess();
          pc := PortStopped(cfg, g);
          return true;
        }
      }
      if attached.Some? {
        pc := Ensured(cfg, g);
        return;
      }
      var ok := StartService(cfg, g, start);
    }

    method StartAfterStop(cfg: ZtConfig, g: nat, start: Option<Membership>)
      requires Valid() && pc == PortStopped(cfg, g)
      modifies this
      ensures Valid() && Now() == Next(old(Now()), Event.StartAfterStop(start))
      ensures appliedG == 0
      ensures if start == None then attached == None && pc == Idle
              else attached == Some(Daemon(old(nextId), cfg.port)) && !exited && pc == Ensured(cfg, g)
    {
      StepKeepsInv(Now(), Event.StartAfterStop(start));
      appliedG := 0;
      var ok := StartService(cfg, g, start);
    }

    /** The client to talk to, and whether the captured generation still has to be applied. */
    method Look(cfg: ZtConfig, g: nat) returns (client: Option<Daemon>, needsReconcile: bool)
      requires Valid() && pc == Ensured(cfg, g)
      modifies this
      ensures Valid() && Now() == Next(old(Now()), Event.Look)
      ensures client == attached == old(attached) && (needsReconcile <==> appliedG != g)
      ensures pc == if client.Some? && needsReconcile then Ready(cfg, g, client.value) else Idle
    {
      client, needsReconcile := attached, appliedG != g;
      pc := if client.Some? && needsReconcile then Ready(cfg, g, client.value) else Idle;
    }

    /** The network reconcile of the loop, outside the lock. */
    method Reconcile(cfg: ZtConfig, g: nat, client: Daemon, service: Service, listed: Option<seq<string>>)
      returns (ok: bool)
      requires Valid() && pc == Ready(cfg, g, client) && client.id in joined && joined[client.id] == service.joined
      requires listed.Some? ==> Ids(listed.value) == service.joined.Keys
      modifies this, service
      ensures Valid() && client.id in joined && joined[client.id] == service.joined
      ensures Enabled(old(Now()), if ok then ReconcileDone else ReconcileFailed(service.joined))
      ensures Now() == Next(old(Now()), if ok then ReconcileDone else ReconcileFailed(service.joined))
    {
      ok := ReconcileNetworks(service, listed, cfg.networks);
      StepKeepsInv(Now(), if ok then ReconcileDone else ReconcileFailed(service.joined));
      joined := joined[client.id := service.joined];
      pc := if ok then Completed(cfg, g, client) else Idle;
    }

    method Record(cfg: ZtConfig, g: nat, client: Daemon)
      requires Valid() && pc == Completed(cfg, g, client)
      modifies this
      ensures Valid() && Now() == Next(old(Now()), Event.Record)
      ensures appliedG == g && pc == Idle && attached == old(attached) && gen == old(gen)
    {
      appliedG := g;
      pc := Idle;
    }
  }
}
