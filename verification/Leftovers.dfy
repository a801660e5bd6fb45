/** What a successful Reconcile can leave behind of the previous configuration, exactly, and what that
    means for strict peers: routing and filtering agree when nothing of it is left in the peer block and
    in the tables of the peers. */
module Leftovers {
  import opened Lists
  import opened Network
  import opened Models
  import opened Kernel
  import opened Runs
  import opened IpRules
  import opened StrictChains
  import opened GatewayChains
  import opened Routes
  import opened Generators
  import opened Effects
  import opened FailClosed
  import opened Guards
  import opened Convergence
  import opened FaultFreeRuns
  import opened Confinement
  import opened Agreement
  import opened SuccessfulRuns

  // ---------------------------------------------------------------- one route over a run

  /** The command deletes this route, if it takes effect. */
  ghost predicate DeletesRoute(c: Cmd, key: RouteKey, hop: Hop) {
    c.DelRoute? && c.key == key && (c.device.Some? ==> c.device.value == hop.device)
  }

  /** Some command that takes effect deletes the route or writes another in its place. */
  ghost predicate RouteGone(cmds: seq<Cmd>, env: nat -> Outcome, t: nat, key: RouteKey, hop: Hop) {
    exists i: nat :: i < |cmds| && Lands(env(t + i))
                     && (DeletesRoute(cmds[i], key, hop) || (cmds[i].ReplaceRoute? && cmds[i].key == key))
  }

  ghost predicate RouteWritten(cmds: seq<Cmd>, key: RouteKey, hop: Hop) {
    exists i: nat :: i < |cmds| && cmds[i].ReplaceRoute? && cmds[i].key == key && cmds[i].hop == hop
  }

  lemma StepRoutes(k: Kernel, c: Cmd, o: Outcome)
    ensures Step(k, c, o).0.routes == if Lands(o) then Apply(k, c).0.routes else k.routes
  {
  }

  lemma RouteGoneCons(c: Cmd, rest: seq<Cmd>, env: nat -> Outcome, t: nat, key: RouteKey, hop: Hop)
    ensures RouteGone([c] + rest, env, t, key, hop) <==>
              || (Lands(env(t)) && (DeletesRoute(c, key, hop) || (c.ReplaceRoute? && c.key == key)))
              || RouteGone(rest, env, t + 1, key, hop)
  {
    hide DeletesRoute;
    hide Lands;
    var all := [c] + rest;
    assert all[0] == c && t + 0 == t;
    if i: nat :| i < |rest| && Lands(env(t + 1 + i))
                 && (DeletesRoute(rest[i], key, hop) || (rest[i].ReplaceRoute? && rest[i].key == key)) {
      assert all[i + 1] == rest[i] && t + (i + 1) == t + 1 + i;
    }
    if i: nat :| i < |all| && Lands(env(t + i))
                 && (DeletesRoute(all[i], key, hop) || (all[i].ReplaceRoute? && all[i].key == key)) {
      if i > 0 {
        assert all[i] == rest[i - 1] && t + 1 + (i - 1) == t + i;
      }
    }
  }

  lemma RouteWrittenCons(c: Cmd, rest: seq<Cmd>, key: RouteKey, hop: Hop)
    ensures RouteWritten([c] + rest, key, hop) <==>
              (c.ReplaceRoute? && c.key == key && c.hop == hop) || RouteWritten(rest, key, hop)
  {
    var all := [c] + rest;
    assert all[0] == c;
    if i: nat :| i < |rest| && rest[i].ReplaceRoute? && rest[i].key == key && rest[i].hop == hop {
      assert all[i + 1] == rest[i];
    }
    if i: nat :| i < |all| && all[i].ReplaceRoute? && all[i].key == key && all[i].hop == hop {
      if i > 0 {
        assert all[i] == rest[i - 1];
      }
    }
  }

  /** A run to the end: its first command, and a run of the others to the end. */
  lemma FirstOf(k: Kernel, cmds: seq<Cmd>, env: nat -> Outcome, t: nat) returns (k': Kernel)
    requires cmds != [] && Run(k, cmds, env, t).ok
    ensures (k', true) == Step(k, cmds[0], env(t)) && Run(k', cmds[1..], env, t + 1).ok
    ensures Run(k, cmds, env, t).Final() == Run(k', cmds[1..], env, t + 1).Final()
    ensures cmds == [cmds[0]] + cmds[1..]
  {
    RunFromUnfold(StepUnder(env), k, cmds, t);
    hide RunFrom;
    hide Step;
    k' := Step(k, cmds[0], env(t)).0;
    assert StepUnder(env)(k, cmds[0], t) == Step(k, cmds[0], env(t));
  }

  /** A route stays as it was if no command that takes effect touches it. */
  lemma {:induction false} RouteStays(k: Kernel, cmds: seq<Cmd>, env: nat -> Outcome, t: nat, key: RouteKey)
    requires Run(k, cmds, env, t).ok && key in k.routes && !RouteGone(cmds, env, t, key, k.routes[key])
    ensures var routes := Run(k, cmds, env, t).Final().routes; key in routes && routes[key] == k.routes[key]
    decreases |cmds|
  {
    hide RunFrom;
    hide Step;
    hide RouteGone;
    if cmds == [] {
      RunEmpty(StepUnder(env), k, t);
    } else {
      var k' := FirstOf(k, cmds, env, t);
      StepRoutes(k, cmds[0], env(t));
      RouteGoneCons(cmds[0], cmds[1..], env, t, key, k.routes[key]);
      RouteStays(k', cmds[1..], env, t + 1, key);
    }
  }

  /** Where a route comes from: one of the commands wrote it, or it was there and none touched it. */
  lemma {:induction false} RouteSource(k: Kernel, cmds: seq<Cmd>, env: nat -> Outcome, t: nat, key: RouteKey)
    requires Run(k, cmds, env, t).ok && key in Run(k, cmds, env, t).Final().routes
    ensures var hop := Run(k, cmds, env, t).Final().routes[key];
            RouteWritten(cmds, key, hop)
                || (key in k.routes && k.routes[key] == hop && !RouteGone(cmds, env, t, key, hop))
    decreases |cmds|
  {
    hide RunFrom;
    hide Step;
    hide RouteGone;
    hide RouteWritten;
    var hop := Run(k, cmds, env, t).Final().routes[key];
    if cmds == [] {
      RunEmpty(StepUnder(env), k, t);
      NothingGone(env, t, key, hop);
    } else {
      var k' := FirstOf(k, cmds, env, t);
      StepRoutes(k, cmds[0], env(t));
      RouteGoneCons(cmds[0], cmds[1..], env, t, key, hop);
      RouteWrittenCons(cmds[0], cmds[1..], key, hop);
      RouteSource(k', cmds[1..], env, t + 1, key);
    }
  }

  lemma NothingGone(env: nat -> Outcome, t: nat, key: RouteKey, hop: Hop)
    ensures !RouteGone([], env, t, key, hop)
  {
  }

  // ---------------------------------------------------------------- one rule slot over a run

  /** Some command that takes effect deletes the rule, or clears its slot before setting it anew. */
  ghost predicate RuleGone(cmds: seq<Cmd>, env: nat -> Outcome, t: nat, x: IpRule) {
    exists i: nat :: i < |cmds| && GoneBy(cmds[i], env(t + i), x)
  }

  ghost predicate GoneBy(c: Cmd, o: Outcome, x: IpRule) {
    (c == DelRule(x.slot, x.body) && Lands(o)) || (c.SetRule? && c.slot == x.slot && o == Done)
  }

  lemma RuleGoneCons(c: Cmd, rest: seq<Cmd>, env: nat -> Outcome, t: nat, x: IpRule)
    ensures RuleGone([c] + rest, env, t, x) <==> GoneBy(c, env(t), x) || RuleGone(rest, env, t + 1, x)
  {
    hide GoneBy;
    var all := [c] + rest;
    assert all[0] == c && t + 0 == t;
    if i: nat :| i < |rest| && GoneBy(rest[i], env(t + 1 + i), x) {
      assert all[i + 1] == rest[i] && t + (i + 1) == t + 1 + i;
    }
    if i: nat :| i < |all| && GoneBy(all[i], env(t + i), x) {
      if i > 0 {
        assert all[i] == rest[i - 1] && t + 1 + (i - 1) == t + i;
      }
    }
  }

  lemma {:induction false} RuleGoneAppend(a: seq<Cmd>, b: seq<Cmd>, env: nat -> Outcome, t: nat, x: IpRule)
    ensures RuleGone(a + b, env, t, x) <==> RuleGone(a, env, t, x) || RuleGone(b, env, t + |a|, x)
    decreases |a|
  {
    hide RuleGone;
    if a == [] {
      assert a + b == b;
      NoRuleGone(env, t, x);
    } else {
      assert a == [a[0]] + a[1..] && a + b == [a[0]] + (a[1..] + b);
      RuleGoneCons(a[0], a[1..], env, t, x);
      RuleGoneCons(a[0], a[1..] + b, env, t, x);
      RuleGoneAppend(a[1..], b, env, t + 1, x);
    }
  }

  lemma NoRuleGone(env: nat -> Outcome, t: nat, x: IpRule)
    ensures !RuleGone([], env, t, x)
  {
  }

  /** What is left in a slot after commands that set no rule. */
  ghost function Remaining(was: seq<RuleBody>, cmds: seq<Cmd>, env: nat -> Outcome, t: nat, s: Slot): seq<RuleBody>
    requires |was| <= 1
  {
    if was != [] && RuleGone(cmds, env, t, IpRule(s, was[0])) then [] else was
  }

  lemma SlotStep(k: Kernel, c: Cmd, o: Outcome, s: Slot)
    requires !c.SetRule? && |At(k.rules, s)| <= 1
    ensures At(Step(k, c, o).0.rules, s) ==
            if At(k.rules, s) != [] && GoneBy(c, o, IpRule(s, At(k.rules, s)[0])) then [] else At(k.rules, s)
  {
  }

  /** Without anything set, a rule leaves its slot exactly by a deletion that takes effect. */
  lemma {:induction false} SlotUnset(k: Kernel, cmds: seq<Cmd>, env: nat -> Outcome, t: nat, s: Slot)
    requires NoSets(cmds) && |At(k.rules, s)| <= 1 && Run(k, cmds, env, t).ok
    ensures At(Run(k, cmds, env, t).Final().rules, s) == Remaining(At(k.rules, s), cmds, env, t, s)
    decreases |cmds|
  {
    hide RunFrom;
    hide Step;
    hide At;
    hide RuleGone;
    hide GoneBy;
    var was := At(k.rules, s);
    if cmds == [] {
      RunEmpty(StepUnder(env), k, t);
      if was != [] {
        NoRuleGone(env, t, IpRule(s, was[0]));
      }
    } else {
      var k' := FirstOf(k, cmds, env, t);
      assert cmds[0] in cmds;
      SlotStep(k, cmds[0], env(t), s);
      if was != [] {
        RuleGoneCons(cmds[0], cmds[1..], env, t, IpRule(s, was[0]));
      }
      SlotUnset(k', cmds[1..], env, t + 1, s);
    }
  }

  lemma SlotSetStep(k: Kernel, x: IpRule, o: Outcome, s: Slot)
    requires |At(k.rules, s)| <= 1 && Step(k, SetRule(x.slot, x.body), o).1
    ensures At(Step(k, SetRule(x.slot, x.body), o).0.rules, s) ==
            if x.slot != s then At(k.rules, s) else (if o == Done then [] else At(k.rules, s)) + [x.body]
  {
  }

  lemma SetElsewhere(k: Kernel, x: IpRule, o: Outcome, s: Slot)
    requires x.slot != s
    ensures At(Step(k, SetRule(x.slot, x.body), o).0.rules, s) == At(k.rules, s)
  {
  }

  /** Setting rules of distinct slots: none for this slot changes nothing in it. */
  lemma SlotUntouched(k: Kernel, xs: seq<IpRule>, env: nat -> Outcome, t: nat, s: Slot)
    requires forall x :: x in xs ==> x.slot != s
    ensures At(Run(k, SetRules(xs), env, t).Final().rules, s) == At(k.rules, s)
  {
    hide Step;
    hide At;
    hide RunFrom;
    ghost var inv := (x: Kernel) => At(x.rules, s) == At(k.rules, s);
    forall x, c, o | inv(x) && c in SetRules(xs)
      ensures inv(Step(x, c, o).0)
    {
      var i :| 0 <= i < |xs| && SetRules(xs)[i] == c;
      assert xs[i] in xs;
      SetElsewhere(x, xs[i], o, s);
    }
    RunKeeps(inv, k, SetRules(xs), env, t);
    var last := Run(k, SetRules(xs), env, t).Final();
    assert last in Run(k, SetRules(xs), env, t).trace;
    assert inv(last);
  }

  lemma TailApart(xs: seq<IpRule>)
    requires DistinctSlots(xs) && xs != []
    ensures DistinctSlots(xs[1..]) && SetRules(xs)[1..] == SetRules(xs[1..]) && xs == [xs[0]] + xs[1..]
    ensures SetRules(xs) != [] && SetRules(xs)[0] == SetRule(xs[0].slot, xs[0].body)
    ensures forall x :: x in xs[1..] ==> x.slot != xs[0].slot
  {
    forall x | x in xs[1..]
      ensures x.slot != xs[0].slot
    {
      var i :| 0 <= i < |xs[1..]| && xs[1..][i] == x;
      assert xs[i + 1] == x;
    }
  }

  /** One for this slot is added to what is left of the old one. */
  lemma {:induction false} SlotSet(k: Kernel, xs: seq<IpRule>, env: nat -> Outcome, t: nat, y: IpRule)
    requires DistinctSlots(xs) && y in xs && |At(k.rules, y.slot)| <= 1 && Run(k, SetRules(xs), env, t).ok
    ensures At(Run(k, SetRules(xs), env, t).Final().rules, y.slot) ==
            Remaining(At(k.rules, y.slot), SetRules(xs), env, t, y.slot) + [y.body]
    decreases |xs|
  {
    hide RunFrom;
    hide Step;
    hide At;
    hide RuleGone;
    hide DistinctSlots;
    hide SetRules;
    var s, was, rest := y.slot, At(k.rules, y.slot), xs[1..];
    TailApart(xs);
    var k' := FirstOf(k, SetRules(xs), env, t);
    SlotSetStep(k, xs[0], env(t), s);
    if was != [] {
      RuleGoneCons(SetRules(xs)[0], SetRules(rest), env, t, IpRule(s, was[0]));
    }
    if xs[0] == y {
      SlotUntouched(k', rest, env, t + 1, s);
      if was != [] {
        NotGone(rest, env, t + 1, IpRule(s, was[0]));
      }
    } else {
      assert y in rest;
      SlotSet(k', rest, env, t + 1, y);
    }
  }

  lemma NotGone(xs: seq<IpRule>, env: nat -> Outcome, t: nat, was: IpRule)
    requires forall x :: x in xs ==> x.slot != was.slot
    ensures !RuleGone(SetRules(xs), env, t, was)
  {
    forall i: nat | i < |xs|
      ensures !GoneBy(SetRules(xs)[i], env(t + i), was)
    {
      assert xs[i] in xs;
    }
  }

  // ---------------------------------------------------------------- the peer block after a run

  lemma UntouchedSlot(k: Kernel, cmds: seq<Cmd>, env: nat -> Outcome, t: nat, s: Slot)
    requires RulesUntouched(cmds)
    ensures At(Run(k, cmds, env, t).Final().rules, s) == At(k.rules, s)
  {
    hide RunFrom;
    hide At;
    ghost var inv := (x: Kernel) => x.rules == k.rules;
    RunKeeps(inv, k, cmds, env, t);
    var last := Run(k, cmds, env, t).Final();
    assert last in Run(k, cmds, env, t).trace;
    assert inv(last);
  }

  lemma UntouchedNotGone(cmds: seq<Cmd>, env: nat -> Outcome, t: nat, x: IpRule)
    requires RulesUntouched(cmds)
    ensures !RuleGone(cmds, env, t, x)
  {
    forall i: nat | i < |cmds|
      ensures !GoneBy(cmds[i], env(t + i), x)
    {
      assert cmds[i] in cmds;
    }
  }

  /** What remains of a slot after three phases: deletions, settings, and nothing. */
  lemma RemainingParts(was: seq<RuleBody>, a: seq<Cmd>, b: seq<Cmd>, c: seq<Cmd>, env: nat -> Outcome, t: nat, s: Slot)
    requires |was| <= 1 && RulesUntouched(c)
    ensures var mid := Remaining(was, a, env, t, s);
            Remaining(mid, b, env, t + |a|, s) == Remaining(was, a + (b + c), env, t, s)
    ensures (forall x :: !RuleGone(b, env, t + |a|, IpRule(s, x))) ==>
              Remaining(was, a, env, t, s) == Remaining(was, a + (b + c), env, t, s)
  {
    hide RuleGone;
    hide RulesUntouched;
    if was != [] {
      var x := IpRule(s, was[0]);
      RuleGoneAppend(a, b + c, env, t, x);
      RuleGoneAppend(b, c, env, t + |a|, x);
      UntouchedNotGone(c, env, t + |a| + |b|, x);
    }
  }

  /** What a successful Reconcile leaves in a rule slot that held at most one rule: the old rule, unless
      it is gone, and behind it the new one. */
  lemma SlotAfterRun(k: Kernel, prev: Inputs, next: Inputs, env: nat -> Outcome, t: nat, s: Slot)
    requires WithinGaps(next) && |At(k.rules, s)| <= 1 && Run(k, ReconcileCmds(prev, next), env, t).ok
    ensures var after := At(Run(k, ReconcileCmds(prev, next), env, t).Final().rules, s);
            var left := Remaining(At(k.rules, s), ReconcileCmds(prev, next), env, t, s);
            && (forall y :: y in AllRules(next) && y.slot == s ==> after == left + [y.body])
            && ((forall y :: y in AllRules(next) ==> y.slot != s) ==> after == left)
  {
    hide RunFrom;
    hide ReconcileCmds;
    hide Before;
    hide After;
    hide AllRules;
    hide WithinGaps;
    hide DistinctSlots;
    hide At;
    hide Remaining;
    hide RulesUntouched;
    hide NoSets;
    hide SetRules;
    AllSlotsDistinct(next);
    RunParts(prev, next);
    BeforeSetsNothing(prev, next);
    AfterTouchesNoRule(prev, next);
    var xs := AllRules(next);
    var before, sets, after := Before(prev, next), SetRules(xs), After(prev, next);
    var r := Run(k, ReconcileCmds(prev, next), env, t);
    var ra, rest := TwoPhases(StepUnder(env), k, before, sets + after, t, r);
    var rb, rc := TwoPhases(StepUnder(env), ra.Final(), sets, after, t + |before|, rest);
    SlotUnset(k, before, env, t, s);
    AtMostOne(At(k.rules, s), before, env, t, s);
    UntouchedSlot(rb.Final(), after, env, t + |before| + |sets|, s);
    RemainingParts(At(k.rules, s), before, sets, after, env, t, s);
    SetPhase(ra.Final(), xs, env, t + |before|, s);
  }

  lemma AtMostOne(was: seq<RuleBody>, cmds: seq<Cmd>, env: nat -> Outcome, t: nat, s: Slot)
    requires |was| <= 1
    ensures |Remaining(was, cmds, env, t, s)| <= 1
  {
  }

  lemma SetPhase(k: Kernel, xs: seq<IpRule>, env: nat -> Outcome, t: nat, s: Slot)
    requires DistinctSlots(xs) && |At(k.rules, s)| <= 1 && Run(k, SetRules(xs), env, t).ok
    ensures var after := At(Run(k, SetRules(xs), env, t).Final().rules, s);
            && (forall y :: y in xs && y.slot == s ==>
               after == Remaining(At(k.rules, s), SetRules(xs), env, t, s) + [y.body])
            && ((forall y :: y in xs ==> y.slot != s) ==>
                  after == At(k.rules, s) && forall x :: !RuleGone(SetRules(xs), env, t, IpRule(s, x)))
  {
    hide RunFrom;
    hide At;
    hide Remaining;
    hide DistinctSlots;
    hide RuleGone;
    hide SetRules;
    forall y | y in xs && y.slot == s
      ensures At(Run(k, SetRules(xs), env, t).Final().rules, s) == Remaining(At(k.rules, s), SetRules(xs), env, t, s)
              + [y.body]
    {
      SlotSet(k, xs, env, t, y);
    }
    if forall y :: y in xs ==> y.slot != s {
      SlotUntouched(k, xs, env, t, s);
      forall x
        ensures !RuleGone(SetRules(xs), env, t, IpRule(s, x))
      {
        NotGone(xs, env, t, IpRule(s, x));
      }
    }
  }

  /** No slot ever holds an empty list, and only what is set appears. */
  lemma SlotPresence(k: Kernel, prev: Inputs, next: Inputs, env: nat -> Outcome, t: nat, s: Slot)
    requires s in k.rules ==> k.rules[s] != []
    ensures var rules := Run(k, ReconcileCmds(prev, next), env, t).Final().rules;
            && (s in rules ==> rules[s] != [])
            && (s !in k.rules && (forall y :: y in AllRules(next) ==> y.slot != s) ==> s !in rules)
  {
    hide ReconcileCmds;
    hide RunFrom;
    hide AllRules;
    hide Step;
    ReconcileSets(prev, next);
    var cmds := ReconcileCmds(prev, next);
    ghost var inv := (x: Kernel) => (s in x.rules ==> x.rules[s] != [])
                        && (s !in k.rules && (forall y :: y in AllRules(next) ==> y.slot != s) ==> s !in x.rules);
    forall x, c, o | inv(x) && c in cmds
      ensures inv(Step(x, c, o).0)
    {
      if c.SetRule? {
        assert IpRule(c.slot, c.body) in AllRules(next);
      }
      PresenceStep(x, c, o, s);
    }
    RunKeeps(inv, k, cmds, env, t);
    var last := Run(k, cmds, env, t).Final();
    assert last in Run(k, cmds, env, t).trace;
    assert inv(last);
  }

  lemma PresenceStep(k: Kernel, c: Cmd, o: Outcome, s: Slot)
    requires s in k.rules ==> k.rules[s] != []
    ensures var rules := Step(k, c, o).0.rules;
            (s in rules ==> rules[s] != []) && (s in rules ==> s in k.rules || (c.SetRule? && c.slot == s))
  {
    RuleOrigin(k, c, o, s, RuleBody(Prefix(V4, 0, 0), None, Prohibit));
  }

  /** Nothing of the previous peer block is left: every one of its rules is deleted, or its slot is
      cleared when a new rule is set there. */
  ghost predicate RulesSwept(prev: Inputs, next: Inputs, env: nat -> Outcome, t: nat) {
    forall x :: x in PeerRules(prev.cfg) ==> RuleGone(ReconcileCmds(prev, next), env, t, x)
  }

  /** The rules of a kernel in step with a configuration, foreign ones outside the block. */
  ghost predicate RulesInStep(k: Kernel, prev: Inputs, rules: map<Slot, seq<RuleBody>>) {
    && WithinGaps(prev) && k.rules == rules + RuleState(prev) && rules.Keys !! Slots(AllRules(prev))
    && forall s :: s in rules ==> s.priority == 0 || s.priority >= DEVICE_BASE
  }

  /** A slot below the device block: what it held is the previous configuration's, one rule or none. */
  lemma SlotBefore(k: Kernel, prev: Inputs, rules: map<Slot, seq<RuleBody>>, s: Slot)
    requires RulesInStep(k, prev, rules) && 1 <= s.priority < DEVICE_BASE
    ensures s in k.rules ==>
              exists x :: x in PeerRules(prev.cfg) && x.slot == s && k.rules[s] == [x.body]
    ensures forall x :: x in PeerRules(prev.cfg) && x.slot == s ==> At(k.rules, s) == [x.body]
    ensures |At(k.rules, s)| <= 1 && (s in k.rules ==> s.priority >= PEER_BASE)
  {
    hide WithinGaps;
    hide AllRules;
    hide RuleState;
    hide PeerRules;
    forall x | x in PeerRules(prev.cfg) && x.slot == s
      ensures At(k.rules, s) == [x.body]
    {
      OwnSlot(prev, x);
    }
    if s in k.rules {
      SlotOwner(prev, s);
      var x :| x in PeerRules(prev.cfg) && x.slot == s;
    }
  }

  lemma NextInBlock(next: Inputs, s: Slot)
    requires WithinGaps(next) && s.priority < DEVICE_BASE
    ensures forall y :: y in AllRules(next) && y.slot == s ==> y in PeerRules(next.cfg) && s.priority >= PEER_BASE
    ensures forall y :: y in PeerRules(next.cfg) ==> y in AllRules(next) && y.slot.priority < DEVICE_BASE
  {
    BlockPriorities(next);
    forall y | y in PeerRules(next.cfg)
      ensures y.slot.priority < DEVICE_BASE
    {
      var i :| 0 <= i < |PeerRules(next.cfg)| && PeerRules(next.cfg)[i] == y;
    }
    hide PeerRules;
    hide OtherRules;
  }

  /** One slot after a successful run. */
  ghost predicate SlotIsNew(rules: map<Slot, seq<RuleBody>>, next: Inputs, s: Slot) {
    && (forall y :: y in PeerRules(next.cfg) && y.slot == s ==> At(rules, s) == [y.body])
    && (s in rules ==> exists y :: y in PeerRules(next.cfg) && y.slot == s)
  }

  lemma SlotExact(k: Kernel, prev: Inputs, next: Inputs, rules: map<Slot, seq<RuleBody>>, env: nat -> Outcome, t: nat,
                  s: Slot)
    requires RulesInStep(k, prev, rules) && WithinGaps(next) && Run(k, ReconcileCmds(prev, next), env, t).ok
    requires 1 <= s.priority < DEVICE_BASE
    ensures SlotIsNew(Run(k, ReconcileCmds(prev, next), env, t).Final().rules, next, s) <==>
              forall x :: x in PeerRules(prev.cfg) && x.slot == s ==> RuleGone(ReconcileCmds(prev, next), env, t, x)
  {
    hide RunFrom;
    hide ReconcileCmds;
    hide RuleGone;
    hide AllRules;
    hide PeerRules;
    hide WithinGaps;
    hide RulesInStep;
    SlotBefore(k, prev, rules, s);
    SlotAfterRun(k, prev, next, env, t, s);
    SlotPresence(k, prev, next, env, t, s);
    NextInBlock(next, s);
    var after := Run(k, ReconcileCmds(prev, next), env, t).Final().rules;
    if s in k.rules {
      var x :| x in PeerRules(prev.cfg) && x.slot == s && k.rules[s] == [x.body];
      assert forall z :: z in PeerRules(prev.cfg) && z.slot == s ==> z == x;
    }
    if y :| y in AllRules(next) && y.slot == s {
      assert y in PeerRules(next.cfg);
    }
  }

  /** After a successful Reconcile the peer block is exactly the new one, and nothing stands below it,
      if and only if the previous block has been swept. */
  lemma BlockExact(k: Kernel, prev: Inputs, next: Inputs, rules: map<Slot, seq<RuleBody>>, env: nat -> Outcome, t: nat)
    requires RulesInStep(k, prev, rules) && WithinGaps(next) && Run(k, ReconcileCmds(prev, next), env, t).ok
    ensures PeerBlockInstalled(Run(k, ReconcileCmds(prev, next), env, t).Final(), next.cfg) <==>
            RulesSwept(prev, next, env, t)
  {
    hide RunFrom;
    hide ReconcileCmds;
    hide RuleGone;
    hide PeerRules;
    hide OtherRules;
    hide WithinGaps;
    hide RulesInStep;
    var k' := Run(k, ReconcileCmds(prev, next), env, t).Final();
    var low := Slot(V4, 1);
    NextInBlock(next, low);
    RulesInStepGaps(k, prev, rules);
    NextInBlock(prev, low);
    BlockPriorities(next);
    BlockPriorities(prev);
    forall s: Slot | 1 <= s.priority < DEVICE_BASE
      ensures SlotIsNew(k'.rules, next, s) <==>
                forall x :: x in PeerRules(prev.cfg) && x.slot == s ==> RuleGone(ReconcileCmds(prev, next), env, t, x)
    {
      SlotExact(k, prev, next, rules, env, t, s);
    }
    InstalledBySlots(k', next);
  }

  lemma RulesInStepGaps(k: Kernel, prev: Inputs, rules: map<Slot, seq<RuleBody>>)
    requires RulesInStep(k, prev, rules)
    ensures WithinGaps(prev)
  {
  }

  lemma InstalledBySlots(k: Kernel, next: Inputs)
    requires WithinGaps(next)
    ensures PeerBlockInstalled(k, next.cfg) <==> forall s: Slot ::
            1 <= s.priority < DEVICE_BASE ==> SlotIsNew(k.rules, next, s)
  {
    NextInBlock(next, Slot(V4, 1));
    BlockPriorities(next);
    hide PeerRules;
    hide OtherRules;
    hide WithinGaps;
    if PeerBlockInstalled(k, next.cfg) {
      forall s: Slot | 1 <= s.priority < DEVICE_BASE
        ensures SlotIsNew(k.rules, next, s)
      {
        assert s == Slot(s.family, s.priority);
      }
    }
    if forall s: Slot :: 1 <= s.priority < DEVICE_BASE ==> SlotIsNew(k.rules, next, s) {
      forall f, n | 1 <= n < DEVICE_BASE && Slot(f, n) in k.rules
        ensures n >= PEER_BASE && exists x :: x in PeerRules(next.cfg) && x.slot == Slot(f, n)
      {
        assert SlotIsNew(k.rules, next, Slot(f, n));
      }
      forall x | x in PeerRules(next.cfg)
        ensures At(k.rules, x.slot) == [x.body]
      {
        assert SlotIsNew(k.rules, next, x.slot);
      }
    }
  }

  // ---------------------------------------------------------------- the tables after a run

  /** Nothing foreign to the new configuration is left in the tables of its peers: whatever stood there
      and is not written by it is deleted or replaced. */
  ghost predicate RoutesSwept(k: Kernel, prev: Inputs, next: Inputs, env: nat -> Outcome, t: nat) {
    forall key :: key in k.routes && PeerTable(next.cfg, key.table) && !Written(next, key, k.routes[key]) ==>
      RouteGone(ReconcileCmds(prev, next), env, t, key, k.routes[key])
  }

  lemma WrittenByNext(prev: Inputs, next: Inputs, key: RouteKey, hop: Hop)
    requires RouteWritten(ReconcileCmds(prev, next), key, hop)
    ensures Written(next, key, hop)
  {
    var i: nat :| i < |ReconcileCmds(prev, next)| && ReconcileCmds(prev, next)[i].ReplaceRoute?
                  && ReconcileCmds(prev, next)[i].key == key && ReconcileCmds(prev, next)[i].hop == hop;
    var c := ReconcileCmds(prev, next)[i];
    assert c in ReconcileCmds(prev, next);
    hide Written;
    hide ReconcileCmds;
    RouteWriter(prev, next, c);
    WrittenBy(next, c);
  }

  lemma WrittenBy(next: Inputs, c: Cmd)
    requires c in SharedRoutesUp(next) + PolicyRouteCmds(Replace, next) && c.ReplaceRoute?
    ensures Written(next, c.key, c.hop)
  {
    hide SharedRoutesUp;
    hide PolicyRouteCmds;
  }

  /** Only the new configuration's own commands write routes. */
  lemma RouteWriter(prev: Inputs, next: Inputs, c: Cmd)
    requires c in ReconcileCmds(prev, next) && c.ReplaceRoute?
    ensures c in SharedRoutesUp(next) + PolicyRouteCmds(Replace, next)
  {
    hide Affected;
    hide SharedRoutesUp;
    hide PolicyRouteCmds;
    hide Teardown;
    hide StrictUp;
    hide Setup;
    TeardownWritesNothing(prev);
    if c in StrictUp(next.cfg, next.nets) {
      ChainCmdsOnly(next, c);
    } else if c in Setup(next) {
      SetupMember(next, c);
      if c !in SharedRoutesUp(next) && c !in PolicyRouteCmds(Replace, next) {
        ChainCmdsOnly(next, c);
      }
    }
  }

  lemma TeardownWritesNothing(prev: Inputs)
    ensures forall c :: c in Teardown(prev) ==> !c.ReplaceRoute?
  {
    hide RoutesDown;
    hide ZeroTierDown;
    hide PeerRules;
    hide OtherRules;
    RoutesDownShape(prev);
    forall c | c in ZeroTierDown(prev)
      ensures !c.ReplaceRoute?
    {
      ChainCmdsOnly(prev, c);
    }
  }

  /** After a successful Reconcile the tables of the new configuration's peers hold only its own routes
      if and only if they have been swept. */
  lemma TablesExact(k: Kernel, prev: Inputs, next: Inputs, env: nat -> Outcome, t: nat)
    requires Run(k, ReconcileCmds(prev, next), env, t).ok
    ensures TablesOwned(Run(k, ReconcileCmds(prev, next), env, t).Final().routes, next) <==>
            RoutesSwept(k, prev, next, env, t)
  {
    hide RunFrom;
    hide ReconcileCmds;
    hide RouteGone;
    hide RouteWritten;
    hide Written;
    hide PeerTable;
    var cmds := ReconcileCmds(prev, next);
    var routes := Run(k, cmds, env, t).Final().routes;
    if RoutesSwept(k, prev, next, env, t) {
      forall key | key in routes && PeerTable(next.cfg, key.table)
        ensures Written(next, key, routes[key])
      {
        RouteSource(k, cmds, env, t, key);
        if RouteWritten(cmds, key, routes[key]) {
          WrittenByNext(prev, next, key, routes[key]);
        }
      }
    }
    if TablesOwned(routes, next) {
      forall key | key in k.routes && PeerTable(next.cfg, key.table) && !Written(next, key, k.routes[key])
        ensures RouteGone(cmds, env, t, key, k.routes[key])
      {
        if !RouteGone(cmds, env, t, key, k.routes[key]) {
          RouteStays(k, cmds, env, t, key);
        }
      }
    }
  }

  // ---------------------------------------------------------------- strict peers

  /** Nothing of the previous configuration is left where strict peers are routed. */
  ghost predicate Swept(k: Kernel, prev: Inputs, next: Inputs, env: nat -> Outcome, t: nat) {
    RulesSwept(prev, next, env, t) && RoutesSwept(k, prev, next, env, t)
  }

  /** A successful Reconcile, whatever its tolerated commands did, leaves the peer block and the tables
      of the peers with nothing but the new configuration's own, exactly if they have been swept. */
  lemma LeftoversExact(k: Kernel, prev: Inputs, next: Inputs, rules: map<Slot, seq<RuleBody>>, env: nat -> Outcome,
                       t: nat)
    requires RulesInStep(k, prev, rules) && WithinGaps(next) && Run(k, ReconcileCmds(prev, next), env, t).ok
    ensures var k' := Run(k, ReconcileCmds(prev, next), env, t).Final();
            PeerBlockInstalled(k', next.cfg) && TablesOwned(k'.routes, next) <==> Swept(k, prev, next, env, t)
  {
    hide RunFrom;
    hide ReconcileCmds;
    hide RulesSwept;
    hide RoutesSwept;
    hide PeerBlockInstalled;
    hide TablesOwned;
    hide RulesInStep;
    hide WithinGaps;
    BlockExact(k, prev, next, rules, env, t);
    TablesExact(k, prev, next, env, t);
  }

  /** What a successful Reconcile achieves for a strict peer of the new configuration, from any previous
      one: if nothing of that is left in the way, a packet of the peer is decided inside the peer block,
      and if it is routed then the strict chain hands it back on the device it is routed to. Policy
      routes may have been refused. */
  lemma StrictGuarantee(k: Kernel, prev: Inputs, next: Inputs, rules: map<Slot, seq<RuleBody>>, env: nat -> Outcome,
                        t: nat,
                        peer: Peer, p: Packet)
    requires Sane(k) && RulesInStep(k, prev, rules) && Valid(next)
    requires Run(k, ReconcileCmds(prev, next), env, t).ok && Swept(k, prev, next, env, t)
    requires NoReservedTables(next.cfg) && GatewayTablesApart(next.cfg)
    requires peer in next.cfg.peers && peer.enabled && peer.strict
    requires FromAddress(peer, p.src) && OwnAddress(next.cfg, peer, p.src) && p.dst.family == p.src.family
    ensures var k' := Run(k, ReconcileCmds(prev, next), env, t).Final();
            var d := Decide(k', p, 1);
            && EndsInBlock(d)
            && (d.Routed? ==>
                  StrictChain(p.src.family) in k'.chains
                  && var first := FirstMatch(k'.chains[StrictChain(p.src.family)], p.(outDev := d.hop.device));
                     first.Some? && first.value.FwRule? && first.value.target == Return)
  {
    hide RunFrom;
    hide ReconcileCmds;
    hide Decide;
    hide Swept;
    hide TablesOwned;
    hide PeerBlockInstalled;
    hide RulesInStep;
    hide OwnAddress;
    hide UniqueTables;
    hide PeerRules;
    hide DeviceRules;
    hide LocalRules;
    hide AllowedEgress;
    hide FirstMatch;
    hide OfFamily;
    hide StrictEgress;
    var k' := Run(k, ReconcileCmds(prev, next), env, t).Final();
    LeftoversExact(k, prev, next, rules, env, t);
    SuccessFillsStrict(k, prev, next, env, t, p.src.family);
    BlockIsPrivate(k', next.cfg);
    StrictConfinement(k', next.cfg, peer, p);
    RoutedIsAllowed(k', next, peer, p);
  }

  // ---------------------------------------------------------------- when everything is swept

  /** Every deletion takes effect. */
  ghost predicate DeletionsLand(cmds: seq<Cmd>, env: nat -> Outcome, t: nat) {
    forall i: nat :: i < |cmds| && (cmds[i].DelRule? || cmds[i].DelRoute?) ==> Lands(env(t + i))
  }

  lemma TeardownPart(prev: Inputs, next: Inputs, c: Cmd)
    requires c in Teardown(prev)
    ensures c in ReconcileCmds(prev, next)
  {
    hide Teardown;
    hide Affected;
    hide StrictUp;
    hide Setup;
  }

  lemma PeerRuleDeleted(prev: Inputs, x: IpRule)
    requires x in PeerRules(prev.cfg)
    ensures DelRule(x.slot, x.body) in Teardown(prev)
  {
    hide PeerRules;
    hide OtherRules;
    hide RoutesDown;
    hide ZeroTierDown;
    var i :| 0 <= i < |PeerRules(prev.cfg)| && PeerRules(prev.cfg)[i] == x;
    assert DelRules(PeerRules(prev.cfg))[i] == DelRule(x.slot, x.body);
    assert DelRule(x.slot, x.body) in DelRules(PeerRules(prev.cfg));
  }

  lemma RouteDeleted(prev: Inputs, key: RouteKey) returns (c: Cmd)
    requires Valid(prev) && key in RouteState(prev)
    ensures c in Teardown(prev) && DeletesRoute(c, key, RouteState(prev)[key])
  {
    hide Valid;
    hide RouteState;
    hide RoutesDown;
    hide ZeroTierDown;
    hide PeerRules;
    hide OtherRules;
    EveryRouteDeleted(prev, key);
    var hop := RouteState(prev)[key];
    c :| c in RoutesDown(prev) && c.DelRoute? && c.key == key && (c.device.Some? ==> c.device.value == hop.device);
  }

  /** From a state in step with the previous configuration, deletions that take effect sweep it all. */
  lemma LandedDeletionsSweep(k: Kernel, prev: Inputs, next: Inputs, routes: map<RouteKey, Hop>, env: nat -> Outcome,
                             t: nat)
    requires Valid(prev) && k.routes == routes + RouteState(prev) && PrivateTables(next.cfg, routes)
    requires DeletionsLand(ReconcileCmds(prev, next), env, t)
    ensures Swept(k, prev, next, env, t)
  {
    hide ReconcileCmds;
    hide Teardown;
    hide RouteState;
    hide Valid;
    hide PeerRules;
    hide PeerTable;
    hide Written;
    hide Lands;
    var cmds := ReconcileCmds(prev, next);
    forall x | x in PeerRules(prev.cfg)
      ensures RuleGone(cmds, env, t, x)
    {
      PeerRuleDeleted(prev, x);
      TeardownPart(prev, next, DelRule(x.slot, x.body));
      var i: nat :| i < |cmds| && cmds[i] == DelRule(x.slot, x.body);
      assert GoneBy(cmds[i], env(t + i), x);
    }
    forall key | key in k.routes && PeerTable(next.cfg, key.table)
      ensures RouteGone(cmds, env, t, key, k.routes[key])
    {
      var c := RouteDeleted(prev, key);
      TeardownPart(prev, next, c);
      var i: nat :| i < |cmds| && cmds[i] == c;
      assert Lands(env(t + i));
    }
  }

  /** Equal but for the routing tables. */
  ghost predicate SameButRoutes(a: Kernel, b: Kernel) {
    a.rules == b.rules && a.chains == b.chains
  }

  lemma StepSameButRoutes(a: Kernel, b: Kernel, c: Cmd, o: Outcome, other: Outcome)
    requires SameButRoutes(a, b) && (o == other || (TouchesRoutes(c) && Tolerant(c)))
    requires other == Done
    ensures Step(a, c, o).1 == Step(b, c, other).1 || (TouchesRoutes(c) && Step(a, c, o).1)
    ensures SameButRoutes(Step(a, c, o).0, Step(b, c, other).0)
  {
    assert Referenced(a, if c.DropChain? then c.chain else Postrouting) <==>
        Referenced(b, if c.DropChain? then c.chain else Postrouting);
  }

  /** Whatever tolerated route commands do, the others succeed as they would without faults. */
  lemma {:induction false} RoutesDoNotMatter(a: Kernel, b: Kernel, cmds: seq<Cmd>, env: nat -> Outcome,
                                             calm: nat -> Outcome, t: nat)
    requires SameButRoutes(a, b) && NoFaults(calm) && Run(b, cmds, calm, t).ok
    requires forall i: nat :: i < |cmds| ==> env(t + i) == Done || (TouchesRoutes(cmds[i]) && Tolerant(cmds[i]))
    ensures Run(a, cmds, env, t).ok
    decreases |cmds|
  {
    hide Step;
    hide RunFrom;
    hide SameButRoutes;
    if cmds == [] {
      RunEmpty(StepUnder(env), a, t);
    } else {
      var b' := FirstOf(b, cmds, calm, t);
      assert env(t + 0) == Done || (TouchesRoutes(cmds[0]) && Tolerant(cmds[0]));
      StepSameButRoutes(a, b, cmds[0], env(t), calm(t));
      RunFromUnfold(StepUnder(env), a, cmds, t);
      assert StepUnder(env)(a, cmds[0], t) == Step(a, cmds[0], env(t));
      forall i: nat | i < |cmds[1..]|
        ensures env(t + 1 + i) == Done || (TouchesRoutes(cmds[1..][i]) && Tolerant(cmds[1..][i]))
      {
        assert cmds[1..][i] == cmds[i + 1] && t + (i + 1) == t + 1 + i;
      }
      RoutesDoNotMatter(Step(a, cmds[0], env(t)).0, b', cmds[1..], env, calm, t + 1);
    }
  }

  /** Only tolerated route commands meet faults, of whatever kind. */
  ghost predicate OnlyRoutesFail(cmds: seq<Cmd>, env: nat -> Outcome, t: nat) {
    forall i: nat :: i < |cmds| ==> env(t + i) == Done || (TouchesRoutes(cmds[i]) && Tolerant(cmds[i]))
  }

  /** Then Reconcile succeeds, from any state in step with the previous configuration. */
  lemma OnlyRoutesFailSucceeds(k: Kernel, prev: Inputs, next: Inputs, rules: map<Slot, seq<RuleBody>>,
                               routes: map<RouteKey, Hop>,
                               env: nat -> Outcome, t: nat)
    requires Valid(prev) && Valid(next) && k.BuiltIns()
    requires Holds(k, prev, rules, routes) && ForeignTo(rules, routes, prev) && ForeignTo(rules, routes, next)
    requires OnlyRoutesFail(ReconcileCmds(prev, next), env, t)
    ensures Run(k, ReconcileCmds(prev, next), env, t).ok
  {
    hide ReconcileCmds;
    hide RunFrom;
    hide Valid;
    hide Holds;
    hide ForeignTo;
    hide Kernel.BuiltIns;
    hide Filters;
    ghost var calm := (i: nat) => Done;
    ReconcileConverges(k, prev, next, rules, routes, calm, t, V4);
    RoutesDoNotMatter(k, k, ReconcileCmds(prev, next), env, calm, t);
  }

  /** The case the tolerance is for: the kernel refuses any number of policy or gateway routes and does
      everything else. Reconcile succeeds, and routing and filtering agree for every strict peer. */
  lemma RefusedRoutesAgree(k: Kernel, prev: Inputs, next: Inputs, rules: map<Slot, seq<RuleBody>>,
                           routes: map<RouteKey, Hop>,
                           env: nat -> Outcome, t: nat, peer: Peer, p: Packet)
    requires Valid(prev) && Valid(next) && Sane(k)
    requires Holds(k, prev, rules, routes) && ForeignTo(rules, routes, prev) && ForeignTo(rules, routes, next)
    requires forall s :: s in rules ==> s.priority == 0 || s.priority >= DEVICE_BASE
    requires PrivateTables(next.cfg, routes) && NoReservedTables(next.cfg) && GatewayTablesApart(next.cfg)
    requires OnlyRoutesFail(ReconcileCmds(prev, next), env, t) && DeletionsLand(ReconcileCmds(prev, next), env, t)
    requires peer in next.cfg.peers && peer.enabled && peer.strict
    requires FromAddress(peer, p.src) && OwnAddress(next.cfg, peer, p.src) && p.dst.family == p.src.family
    ensures var r := Run(k, ReconcileCmds(prev, next), env, t);
            var d := Decide(r.Final(), p, 1);
            && r.ok && EndsInBlock(d)
            && (d.Routed? ==>
                  StrictChain(p.src.family) in r.Final().chains
                  && var first := FirstMatch(r.Final().chains[StrictChain(p.src.family)], p.(outDev := d.hop.device));
                     first.Some? && first.value.FwRule? && first.value.target == Return)
  {
    hide RunFrom;
    hide ReconcileCmds;
    hide Decide;
    hide Swept;
    hide PrivateTables;
    hide OnlyRoutesFail;
    hide DeletionsLand;
    hide RouteState;
    hide RuleState;
    hide AllRules;
    hide OwnAddress;
    hide UniqueTables;
    hide WithinGaps;
    hide FirstMatch;
    OnlyRoutesFailSucceeds(k, prev, next, rules, routes, env, t);
    LandedDeletionsSweep(k, prev, next, routes, env, t);
    StrictGuarantee(k, prev, next, rules, env, t, peer, p);
  }
}
