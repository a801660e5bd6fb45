/** The part of the Linux kernel the routing code drives: `ip rule` databases, routing tables and
    netfilter chains, the commands issued against them, and how packets are treated. */
module Kernel {
  import opened Lists
  import opened Network
  import opened Runs

  // ---------------------------------------------------------------- state

  datatype Action = Lookup(table: nat) | Prohibit

  /** Selector and action of an `ip rule`. */
  datatype RuleBody = RuleBody(src: Prefix, dst: Option<Prefix>, action: Action)

  /** A priority in the rule database of one address family. */
  datatype Slot = Slot(family: Family, priority: nat)

  datatype RouteKey = RouteKey(table: nat, dest: Prefix)

  datatype Hop = Hop(device: string, via: Option<Address>)

  datatype ChainId =
    | Forward(family: Family)        // filter table, built in
    | Postrouting                    // IPv4 nat table, built in
    | StrictChain(family: Family)    // WG_BUSY_STRICT4 / WG_BUSY_STRICT6
    | GatewayChain(family: Family)   // WG_BUSY_GW_FWD4 / WG_BUSY_GW_FWD6
    | GatewayNat                     // WG_BUSY_GW_NAT4

  datatype Target = Accept | Reject | Return | Masquerade | Jump(chain: ChainId)

  /** A netfilter rule. Foreign rules belong to the administrator and may do anything. */
  datatype FwRule =
    | FwRule(inDev: Option<string>, outDev: Option<string>, src: Option<Prefix>, dst: Option<Prefix>,
             established: bool, comment: bool, target: Target)
    | Foreign(id: nat)

  /** rules maps a slot to its non-empty list of rules in insertion order; user chains exist
      exactly while they are keys of chains. */
  datatype Kernel = Kernel(
    rules: map<Slot, seq<RuleBody>>,
    routes: map<RouteKey, Hop>,
    chains: map<ChainId, seq<FwRule>>)
  {
    ghost predicate BuiltIns() {
      (forall f: Family :: Forward(f) in chains) && Postrouting in chains
    }
  }

  // ---------------------------------------------------------------- commands

  datatype Cmd =
    | SetRule(slot: Slot, body: RuleBody)              // rule del priority N || true; rule add
    | DelRule(slot: Slot, body: RuleBody)              // rule del ... || true
    | ReplaceRoute(key: RouteKey, hop: Hop, tolerant: bool)
    | DelRoute(key: RouteKey, device: Option<string>)  // || true
    | NewChain(chain: ChainId)                         // -N || true
    | FlushChain(chain: ChainId, tolerant: bool)       // -F
    | DropChain(chain: ChainId)                        // -X || true
    | EnsureFirst(chain: ChainId, rule: FwRule)        // -C || -I 1
    | EnsureLast(chain: ChainId, rule: FwRule)         // -C || -A
    | Append(chain: ChainId, rule: FwRule)             // -A
    | Prepend(chain: ChainId, rule: FwRule)            // -I 1
    | Remove(chain: ChainId, rule: FwRule)             // -D || true

  /** Commands whose shell line ends in `|| true`: their failure is not reported. */
  predicate Tolerant(c: Cmd) {
    match c
    case DelRule(_, _) | DelRoute(_, _) | NewChain(_) | DropChain(_) | Remove(_, _) => true
    case ReplaceRoute(_, _, t) => t
    case FlushChain(_, t) => t
    case _ => false
  }

  function SetSlot(m: map<Slot, seq<RuleBody>>, s: Slot, bodies: seq<RuleBody>): map<Slot, seq<RuleBody>> {
    if bodies == [] then m - {s} else m[s := bodies]
  }

  function At(m: map<Slot, seq<RuleBody>>, s: Slot): seq<RuleBody> {
    if s in m then m[s] else []
  }

  /** `ip rule del priority N`: removes the first rule of the slot, whatever it says. */
  function ClearFirst(m: map<Slot, seq<RuleBody>>, s: Slot): map<Slot, seq<RuleBody>> {
    if At(m, s) == [] then m else SetSlot(m, s, At(m, s)[1..])
  }

  predicate Referenced(k: Kernel, chain: ChainId) {
    exists c | c in k.chains :: exists r | r in k.chains[c] :: r.FwRule? && r.target == Jump(chain)
  }

  /** A jump can only be added while its chain exists. */
  predicate CanAdd(k: Kernel, chain: ChainId, r: FwRule) {
    chain in k.chains && (r.FwRule? && r.target.Jump? ==> r.target.chain in k.chains)
  }

  /** What a command does when nothing but its own meaning stands in its way: the new state, and
      whether it succeeded. */
  function Apply(k: Kernel, c: Cmd): (Kernel, bool) {
    match c
    case SetRule(s, b) =>
      var cleared := ClearFirst(k.rules, s);
      if b in At(cleared, s) then (k.(rules := cleared), false)
      else (k.(rules := SetSlot(cleared, s, At(cleared, s) + [b])), true)
    case DelRule(s, b) =>
      (k.(rules := if b in At(k.rules, s) then SetSlot(k.rules, s, RemoveFirst(At(k.rules, s), b)) else k.rules),
       b in At(k.rules, s))
    case ReplaceRoute(key, hop, _) => (k.(routes := k.routes[key := hop]), true)
    case DelRoute(key, dev) =>
      var hit := key in k.routes && (dev.Some? ==> k.routes[key].device == dev.value);
      (if hit then k.(routes := k.routes - {key}) else k, hit)
    case NewChain(ch) => if ch in k.chains then (k, false) else (k.(chains := k.chains[ch := []]), true)
    case FlushChain(ch, _) => if ch in k.chains then (k.(chains := k.chains[ch := []]), true) else (k, false)
    case DropChain(ch) =>
      if ch in k.chains && k.chains[ch] == [] && !Referenced(k, ch) then (k.(chains := k.chains - {ch}), true)
      else (k, false)
    case EnsureFirst(ch, r) =>
      if ch in k.chains && r in k.chains[ch] then (k, true)
      else if CanAdd(k, ch, r) then (k.(chains := k.chains[ch := [r] + k.chains[ch]]), true)
      else (k, false)
    case EnsureLast(ch, r) =>
      if ch in k.chains && r in k.chains[ch] then (k, true)
      else if CanAdd(k, ch, r) then (k.(chains := k.chains[ch := k.chains[ch] + [r]]), true)
      else (k, false)
    case Append(ch, r) =>
      if CanAdd(k, ch, r) then (k.(chains := k.chains[ch := k.chains[ch] + [r]]), true) else (k, false)
    case Prepend(ch, r) =>
      if CanAdd(k, ch, r) then (k.(chains := k.chains[ch := [r] + k.chains[ch]]), true) else (k, false)
    case Remove(ch, r) =>
      if ch in k.chains && r in k.chains[ch] then (k.(chains := k.chains[ch := RemoveFirst(k.chains[ch], r)]), true)
      else (k, false)
  }

  /** What the environment does to one command: lets it run, refuses it, lets only the first or only
      the second half of a compound command run, or lets it take effect and reports a failure all the
      same. */
  datatype Outcome = Done | Refused | FirstHalf | SecondHalf | Unreported

  /** The second half of a compound command alone: the add without the delete by priority, the insert
      after a check that failed for a reason of its own. */
  function SecondPart(k: Kernel, c: Cmd): (Kernel, bool) {
    match c
    case SetRule(s, b) =>
      if b in At(k.rules, s) then (k, false) else (k.(rules := SetSlot(k.rules, s, At(k.rules, s) + [b])), true)
    case EnsureFirst(ch, r) => Apply(k, Prepend(ch, r))
    case EnsureLast(ch, r) => Apply(k, Append(ch, r))
    case _ => Apply(k, c)
  }

  /** One shell command under an outcome: the new state and whether the shell reports success. */
  function Step(k: Kernel, c: Cmd, o: Outcome): (Kernel, bool) {
    match o
    case Done => var (k', done) := Apply(k, c); (k', done || Tolerant(c))
    case Refused => (k, Tolerant(c))
    case FirstHalf =>
      (if c.SetRule? then k.(rules := ClearFirst(k.rules, c.slot)) else k, Tolerant(c))
    case SecondHalf => var (k', done) := SecondPart(k, c); (k', done || Tolerant(c))
    case Unreported => (Apply(k, c).0, Tolerant(c))
  }

  /** What an outcome can make of the chains: nothing, the command's own effect, or an insert whose
      check was skipped. */
  lemma ChainOutcomes(k: Kernel, c: Cmd, o: Outcome)
    ensures var m := Step(k, c, o).0.chains;
            || m == k.chains
            || m == Apply(k, c).0.chains
            || (c.EnsureFirst? && m == Apply(k, Prepend(c.chain, c.rule)).0.chains)
            || (c.EnsureLast? && m == Apply(k, Append(c.chain, c.rule)).0.chains)
  {
  }

  function StepUnder(env: nat -> Outcome): (Kernel, Cmd, nat) -> (Kernel, bool) {
    (k, c, t: nat) => Step(k, c, env(t))
  }

  /** The commands in order, stopping at the first one that fails. */
  ghost function Run(k: Kernel, cmds: seq<Cmd>, env: nat -> Outcome, t: nat): (r: Outcomes<Kernel>)
    ensures r.Proper() && r.trace[0] == k
  {
    RunFrom(StepUnder(env), k, cmds, t)
  }

  /** An invariant that every command keeps, whatever its outcome, holds in every state of a run. */
  lemma RunKeeps(inv: Kernel -> bool, k: Kernel, cmds: seq<Cmd>, env: nat -> Outcome, t: nat)
    requires inv(k)
    requires forall s, c, o :: inv(s) && c in cmds ==> inv(Step(s, c, o).0)
    ensures forall s :: s in Run(k, cmds, env, t).trace ==> inv(s)
  {
    forall s, c, i: nat | inv(s) && c in cmds
      ensures inv(StepUnder(env)(s, c, i).0)
    {
      assert StepUnder(env)(s, c, i) == Step(s, c, env(i));
    }
    RunFromKeeps(StepUnder(env), inv, k, cmds, t);
  }

  /** The effect of a list of commands none of which meets a fault. */
  function Do(k: Kernel, cmds: seq<Cmd>): Kernel {
    if cmds == [] then k else Apply(Do(k, cmds[..|cmds| - 1]), cmds[|cmds| - 1]).0
  }

  lemma DoSnoc(k: Kernel, cmds: seq<Cmd>, c: Cmd)
    ensures Do(k, cmds + [c]) == Apply(Do(k, cmds), c).0
  {
    assert (cmds + [c])[..|cmds|] == cmds;
  }

  lemma {:induction false} DoAppend(k: Kernel, a: seq<Cmd>, b: seq<Cmd>)
    ensures Do(k, a + b) == Do(Do(k, a), b)
  {
    if b == [] {
      assert a + b == a;
    } else {
      DoAppend(k, a, b[..|b| - 1]);
      assert (a + b)[..|a + b| - 1] == a + b[..|b| - 1];
    }
  }

  lemma DoCons(k: Kernel, c: Cmd, b: seq<Cmd>)
    ensures Do(k, [c] + b) == Do(Apply(k, c).0, b)
  {
    DoAppend(k, [c], b);
    assert [c][..0] == [];
    assert Do(k, [c]) == Apply(k, c).0;
  }

  lemma DoThree(k: Kernel, a: Cmd, b: Cmd, c: Cmd)
    ensures Do(k, [a, b, c]) == Apply(Apply(Apply(k, a).0, b).0, c).0
  {
    DoSnoc(k, [], a);
    DoSnoc(k, [a], b);
    DoSnoc(k, [a, b], c);
    assert [] + [a] == [a] && [a] + [b] == [a, b] && [a, b] + [c] == [a, b, c];
    assert Do(k, []) == k;
    hide Do;
    hide Apply;
  }

  ghost predicate NoFaults(env: nat -> Outcome) {
    forall t :: env(t) == Done
  }

  /** A run that succeeds without faults ends in the state Do computes. */
  lemma {:induction false} FaultFree(k: Kernel, cmds: seq<Cmd>, env: nat -> Outcome, t: nat)
    requires NoFaults(env) && Run(k, cmds, env, t).ok
    ensures Run(k, cmds, env, t).Final() == Do(k, cmds)
    decreases |cmds|
  {
    if cmds != [] {
      var k' := Apply(k, cmds[0]).0;
      assert StepUnder(env)(k, cmds[0], t).0 == k';
      RunFromUnfold(StepUnder(env), k, cmds, t);
      FaultFree(k', cmds[1..], env, t + 1);
      DoCons(k, cmds[0], cmds[1..]);
      assert cmds == [cmds[0]] + cmds[1..];
    }
  }

  // ---------------------------------------------------------------- packets

  datatype Packet = Packet(inDev: string, outDev: string, src: Address, dst: Address, established: bool)

  datatype Verdict = Accepted | Rejected | Continue

  /** Interface match; a trailing '+' matches any suffix. */
  predicate DeviceMatches(pattern: string, device: string) {
    if pattern != "" && pattern[|pattern| - 1] == '+' then pattern[..|pattern| - 1] <= device
    else pattern == device
  }

  predicate Matches(r: FwRule, p: Packet)
    requires r.FwRule?
  {
    && (r.inDev.Some? ==> DeviceMatches(r.inDev.value, p.inDev))
    && (r.outDev.Some? ==> DeviceMatches(r.outDev.value, p.outDev))
    && (r.src.Some? ==> Contains(r.src.value, p.src))
    && (r.dst.Some? ==> Contains(r.dst.value, p.dst))
    && (r.established ==> p.established)
  }

  /** The first rule of a user chain that matches. The application's chains hold no jumps. */
  function FirstMatch(rules: seq<FwRule>, p: Packet): (r: Option<FwRule>)
    ensures r.Some? ==> r.value in rules && r.value.FwRule? && Matches(r.value, p)
    ensures r == None ==> forall x :: x in rules && x.FwRule? ==> !Matches(x, p)
  {
    if rules == [] then None
    else if rules[0].FwRule? && Matches(rules[0], p) then Some(rules[0])
    else FirstMatch(rules[1..], p)
  }

  function UserVerdict(rules: seq<FwRule>, p: Packet): Verdict {
    match FirstMatch(rules, p)
    case None => Continue
    case Some(r) => if r.target.Accept? then Accepted else if r.target.Reject? then Rejected else Continue
  }

  /** Evaluation of the FORWARD chain; foreign gives the meaning of the administrator's rules. */
  ghost function ForwardVerdict(k: Kernel, rules: seq<FwRule>, p: Packet, foreign: (nat, Packet) -> Verdict): Verdict {
    if rules == [] then Continue
    else
      var v :=
        match rules[0]
        case Foreign(id) => foreign(id, p)
        case FwRule(_, _, _, _, _, _, t) =>
          if !Matches(rules[0], p) then Continue
          else match t
               case Accept => Accepted
               case Reject => Rejected
               case Jump(ch) => if ch in k.chains then UserVerdict(k.chains[ch], p) else Continue
               case _ => Continue;
      if v == Continue then ForwardVerdict(k, rules[1..], p, foreign) else v
  }

  ghost function Forwarded(k: Kernel, p: Packet, foreign: (nat, Packet) -> Verdict): Verdict
    requires k.BuiltIns()
  {
    ForwardVerdict(k, k.chains[Forward(p.src.family)], p, foreign)
  }

  datatype Decision =
    | Routed(priority: nat, table: nat, key: RouteKey, hop: Hop)
    | Prohibited(priority: nat)
    | NoRule

  /** Longest-prefix match in one table, trying lengths from `length` down. */
  function TableLookup(routes: map<RouteKey, Hop>, table: nat, dst: Address, length: nat): Option<RouteKey> {
    var key := RouteKey(table, NetworkOf(dst, length));
    if key in routes then Some(key)
    else if length == 0 then None
    else TableLookup(routes, table, dst, length - 1)
  }

  predicate BodyMatches(b: RuleBody, p: Packet) {
    Contains(b.src, p.src) && (b.dst.Some? ==> Contains(b.dst.value, p.dst))
  }

  /** The rules of one slot: the first that matches and decides. */
  function SlotDecision(k: Kernel, priority: nat, bodies: seq<RuleBody>, p: Packet): Decision {
    if bodies == [] then NoRule
    else if BodyMatches(bodies[0], p) && bodies[0].action.Prohibit? then Prohibited(priority)
    else if BodyMatches(bodies[0], p) then
      var table := bodies[0].action.table;
      match TableLookup(k.routes, table, p.dst, Bits(p.dst.family))
      case Some(key) => (assert key in k.routes by { LookupHits(k.routes, table, p.dst, Bits(p.dst.family)); }
                         Routed(priority, table, key, k.routes[key]))
      case None => SlotDecision(k, priority, bodies[1..], p)
    else SlotDecision(k, priority, bodies[1..], p)
  }

  /** Rule evaluation in ascending priority, up to the last priority the kernel itself installs. */
  const LAST_PRIORITY: nat := 32767

  function Decide(k: Kernel, p: Packet, priority: nat): Decision
    decreases if priority > LAST_PRIORITY then 0 else LAST_PRIORITY + 1 - priority
  {
    if priority > LAST_PRIORITY then NoRule
    else
      var d := SlotDecision(k, priority, At(k.rules, Slot(p.src.family, priority)), p);
      if d.NoRule? then Decide(k, p, priority + 1) else d
  }

  /** A hit is a route of the table that covers the destination, and the most specific one. */
  lemma {:induction false} LookupHits(routes: map<RouteKey, Hop>, table: nat, dst: Address, length: nat)
    requires length <= Bits(dst.family)
    ensures match TableLookup(routes, table, dst, length)
            case Some(key) =>
              && key in routes && key.table == table && Contains(key.dest, dst)
              && forall n :: key.dest.length < n <= length ==> RouteKey(table, NetworkOf(dst, n)) !in routes
            case None => forall n :: 0 <= n <= length ==> RouteKey(table, NetworkOf(dst, n)) !in routes
  {
    if RouteKey(table, NetworkOf(dst, length)) !in routes && length > 0 {
      LookupHits(routes, table, dst, length - 1);
    }
  }
}
