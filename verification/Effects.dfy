/** What whole command lists do to the rule database, the routing tables and the chains when no
    command meets a fault. */
module Effects {
  import opened Lists
  import opened Network
  import opened Models
  import opened Kernel
  import opened IpRules
  import opened StrictChains
  import opened GatewayChains
  import opened Routes
  import opened Generators

  // ---------------------------------------------------------------- framing

  predicate TouchesRules(c: Cmd) { c.SetRule? || c.DelRule? }

  predicate TouchesRoutes(c: Cmd) { c.ReplaceRoute? || c.DelRoute? }

  predicate TouchesChain(c: Cmd, ch: ChainId) {
    !TouchesRules(c) && !TouchesRoutes(c) && c.chain == ch
  }

  lemma {:induction false} KeepsRules(k: Kernel, cmds: seq<Cmd>)
    requires forall c :: c in cmds ==> !TouchesRules(c)
    ensures Do(k, cmds).rules == k.rules
  {
    if cmds != [] {
      KeepsRules(k, cmds[..|cmds| - 1]);
      assert cmds[|cmds| - 1] in cmds;
    }
  }

  lemma {:induction false} KeepsRoutes(k: Kernel, cmds: seq<Cmd>)
    requires forall c :: c in cmds ==> !TouchesRoutes(c)
    ensures Do(k, cmds).routes == k.routes
  {
    if cmds != [] {
      KeepsRoutes(k, cmds[..|cmds| - 1]);
      assert cmds[|cmds| - 1] in cmds;
    }
  }

  ghost predicate SameChain(k: Kernel, k': Kernel, ch: ChainId) {
    (ch in k.chains <==> ch in k'.chains) && (ch in k.chains ==> k.chains[ch] == k'.chains[ch])
  }

  lemma {:induction false} KeepsChain(k: Kernel, cmds: seq<Cmd>, ch: ChainId)
    requires forall c :: c in cmds ==> !TouchesChain(c, ch)
    ensures SameChain(k, Do(k, cmds), ch)
  {
    if cmds != [] {
      KeepsChain(k, cmds[..|cmds| - 1], ch);
      assert cmds[|cmds| - 1] in cmds;
    }
  }

  lemma {:induction false} KeepsBuiltIns(k: Kernel, cmds: seq<Cmd>)
    requires k.BuiltIns()
    requires forall c :: c in cmds && c.DropChain? ==> !c.chain.Forward? && c.chain != Postrouting
    ensures Do(k, cmds).BuiltIns()
  {
    if cmds != [] {
      KeepsBuiltIns(k, cmds[..|cmds| - 1]);
      assert cmds[|cmds| - 1] in cmds;
    }
  }

  // ---------------------------------------------------------------- rules

  ghost predicate DistinctSlots(xs: seq<IpRule>) {
    forall i, j :: 0 <= i < j < |xs| ==> xs[i].slot != xs[j].slot
  }

  ghost function Slots(xs: seq<IpRule>): set<Slot> {
    set x | x in xs :: x.slot
  }

  /** The rule database that holds exactly the given rules. */
  ghost function RuleMap(xs: seq<IpRule>): map<Slot, seq<RuleBody>> {
    if xs == [] then map[] else RuleMap(xs[..|xs| - 1])[xs[|xs| - 1].slot := [xs[|xs| - 1].body]]
  }

  lemma {:induction false} RuleMapAt(xs: seq<IpRule>)
    requires DistinctSlots(xs)
    ensures RuleMap(xs).Keys == Slots(xs)
    ensures forall i :: 0 <= i < |xs| ==> xs[i].slot in RuleMap(xs) && RuleMap(xs)[xs[i].slot] == [xs[i].body]
  {
    if xs != [] {
      var init, last := xs[..|xs| - 1], xs[|xs| - 1];
      RuleMapAt(init);
      assert xs == init + [last];
      forall i | 0 <= i < |xs|
        ensures xs[i].slot in RuleMap(xs) && RuleMap(xs)[xs[i].slot] == [xs[i].body]
      {
        if i < |init| {
          assert init[i] == xs[i];
        }
      }
    }
  }

  /** Clearing and setting a slot that holds at most one rule. */
  lemma SetOne(k: Kernel, x: IpRule)
    requires x.slot in k.rules ==> |k.rules[x.slot]| == 1
    ensures Apply(k, SetRule(x.slot, x.body)).0.rules == k.rules[x.slot := [x.body]]
  {
    if x.slot in k.rules {
      assert k.rules[x.slot][1..] == [];
    }
    assert At(ClearFirst(k.rules, x.slot), x.slot) == [];
    assert At(ClearFirst(k.rules, x.slot), x.slot) + [x.body] == [x.body];
    assert ClearFirst(k.rules, x.slot)[x.slot := [x.body]] == k.rules[x.slot := [x.body]];
  }

  lemma LastSlotIsNew(xs: seq<IpRule>)
    requires xs != [] && DistinctSlots(xs)
    ensures DistinctSlots(xs[..|xs| - 1]) && xs[|xs| - 1].slot !in Slots(xs[..|xs| - 1])
    ensures Slots(xs) == Slots(xs[..|xs| - 1]) + {xs[|xs| - 1].slot}
  {
    assert xs == xs[..|xs| - 1] + [xs[|xs| - 1]];
  }

  lemma {:induction false} SetRulesEffect(k: Kernel, xs: seq<IpRule>)
    requires DistinctSlots(xs)
    requires forall x :: x in xs && x.slot in k.rules ==> |k.rules[x.slot]| == 1
    ensures Do(k, SetRules(xs)).rules == k.rules + RuleMap(xs)
  {
    var cmds := SetRules(xs);
    if xs != [] {
      var init, last := xs[..|xs| - 1], xs[|xs| - 1];
      assert cmds[..|cmds| - 1] == SetRules(init);
      LastSlotIsNew(xs);
      SetRulesEffect(k, init);
      RuleMapAt(init);
      assert last in xs;
      SetAfter(k.rules, RuleMap(init), Do(k, SetRules(init)), last);
    }
  }

  lemma SetAfter(m: map<Slot, seq<RuleBody>>, n: map<Slot, seq<RuleBody>>, k: Kernel, x: IpRule)
    requires k.rules == m + n && x.slot !in n
    requires x.slot in m ==> |m[x.slot]| == 1
    ensures Apply(k, SetRule(x.slot, x.body)).0.rules == m + n[x.slot := [x.body]]
  {
    SetOne(k, x);
  }

  lemma {:induction false} DelRulesEffect(k: Kernel, xs: seq<IpRule>)
    requires DistinctSlots(xs)
    requires forall x :: x in xs && x.slot in k.rules ==> k.rules[x.slot] == [x.body]
    ensures Do(k, DelRules(xs)).rules == k.rules - Slots(xs)
  {
    var cmds := DelRules(xs);
    if xs != [] {
      var init, last := xs[..|xs| - 1], xs[|xs| - 1];
      assert xs == init + [last];
      assert cmds[..|cmds| - 1] == DelRules(init);
      LastSlotIsNew(xs);
      DelRulesEffect(k, init);
      var m := Do(k, DelRules(init)).rules;
      assert m == k.rules - Slots(init);
      if last.slot in m {
        assert RemoveFirst([last.body], last.body) == [];
      }
      assert Do(k, cmds).rules == m - {last.slot};
      assert k.rules - Slots(xs) == m - {last.slot};
    }
  }

  lemma {:induction false} RuleMapAppend(a: seq<IpRule>, b: seq<IpRule>)
    ensures RuleMap(a + b) == RuleMap(a) + RuleMap(b)
  {
    if b == [] {
      assert a + b == a;
    } else {
      assert (a + b)[..|a + b| - 1] == a + b[..|b| - 1];
      RuleMapAppend(a, b[..|b| - 1]);
    }
  }

  // ---------------------------------------------------------------- routes

  /** The routes a list of `route replace` commands leaves behind; later ones win. */
  ghost function RouteMap(cmds: seq<Cmd>): map<RouteKey, Hop> {
    if cmds == [] then map[]
    else
      var c := cmds[|cmds| - 1];
      var rest := RouteMap(cmds[..|cmds| - 1]);
      if c.ReplaceRoute? then rest[c.key := c.hop] else rest
  }

  lemma {:induction false} RouteMapOrigin(cmds: seq<Cmd>)
    ensures forall key :: key in RouteMap(cmds) ==>
              exists c :: c in cmds && c.ReplaceRoute? && c.key == key && c.hop == RouteMap(cmds)[key]
    ensures forall c :: c in cmds && c.ReplaceRoute? ==> c.key in RouteMap(cmds)
  {
    if cmds != [] {
      RouteMapOrigin(cmds[..|cmds| - 1]);
      assert cmds == cmds[..|cmds| - 1] + [cmds[|cmds| - 1]];
    }
  }

  lemma {:induction false} ReplaceEffect(k: Kernel, cmds: seq<Cmd>)
    requires forall c :: c in cmds ==> !c.DelRoute?
    ensures Do(k, cmds).routes == k.routes + RouteMap(cmds)
  {
    if cmds != [] {
      ReplaceEffect(k, cmds[..|cmds| - 1]);
      assert cmds[|cmds| - 1] in cmds;
    }
  }

  lemma {:induction false} RouteMapAppend(a: seq<Cmd>, b: seq<Cmd>)
    ensures RouteMap(a + b) == RouteMap(a) + RouteMap(b)
  {
    if b == [] {
      assert a + b == a;
    } else {
      assert (a + b)[..|a + b| - 1] == a + b[..|b| - 1];
      RouteMapAppend(a, b[..|b| - 1]);
    }
  }

  /** A deletion in the list removes this route. */
  ghost predicate Deletes(cmds: seq<Cmd>, key: RouteKey, hop: Hop) {
    exists c :: c in cmds && c.DelRoute? && c.key == key && (c.device.Some? ==> c.device.value == hop.device)
  }

  lemma DeletesSnoc(cmds: seq<Cmd>, c: Cmd, key: RouteKey, hop: Hop)
    ensures Deletes(cmds + [c], key, hop) <==>
              Deletes(cmds, key, hop) || Deletes([c], key, hop)
  {
    if Deletes(cmds, key, hop) {
      var d :| d in cmds && d.DelRoute? && d.key == key && (d.device.Some? ==> d.device.value == hop.device);
      assert d in cmds + [c];
    }
    if Deletes([c], key, hop) {
      assert c in cmds + [c];
    }
  }

  /** Exactly the routes some deletion matches disappear; the others stay as they are. */
  lemma {:induction false} DeleteEffect(k: Kernel, cmds: seq<Cmd>)
    requires forall c :: c in cmds ==> c.DelRoute?
    ensures Do(k, cmds).routes == map key | key in k.routes && !Deletes(cmds, key, k.routes[key]) :: k.routes[key]
  {
    if cmds != [] {
      var init, last := cmds[..|cmds| - 1], cmds[|cmds| - 1];
      DeleteEffect(k, init);
      assert cmds == init + [last];
      forall key | key in k.routes {
        DeletesSnoc(init, last, key, k.routes[key]);
      }
      assert last in [last];
    }
  }

  // ---------------------------------------------------------------- chains

  /** The rules a command list appends to one chain, in order. */
  ghost function Appended(cmds: seq<Cmd>, ch: ChainId): seq<FwRule> {
    if cmds == [] then []
    else
      var c := cmds[|cmds| - 1];
      Appended(cmds[..|cmds| - 1], ch) + if c.Append? && c.chain == ch then [c.rule] else []
  }

  lemma {:induction false} AppendedMembers(cmds: seq<Cmd>, ch: ChainId)
    ensures forall r :: r in Appended(cmds, ch) <==> Append(ch, r) in cmds
  {
    if cmds != [] {
      AppendedMembers(cmds[..|cmds| - 1], ch);
      assert cmds == cmds[..|cmds| - 1] + [cmds[|cmds| - 1]];
    }
  }

  lemma OneAppend(k: Kernel, c: Cmd, ch: ChainId)
    requires ch in k.chains
    requires TouchesChain(c, ch) ==> c.Append? && (c.rule.FwRule? ==> !c.rule.target.Jump?)
    ensures var k' := Apply(k, c).0;
            ch in k'.chains
            && k'.chains[ch] == if c.Append? && c.chain == ch then k.chains[ch] + [c.rule] else k.chains[ch]
  {
  }

  lemma {:induction false} AppendEffect(k: Kernel, cmds: seq<Cmd>, ch: ChainId)
    requires ch in k.chains
    requires forall c :: c in cmds && TouchesChain(c, ch) ==> c.Append? && (c.rule.FwRule? ==> !c.rule.target.Jump?)
    ensures ch in Do(k, cmds).chains && Do(k, cmds).chains[ch] == k.chains[ch] + Appended(cmds, ch)
  {
    if cmds != [] {
      var init, c := cmds[..|cmds| - 1], cmds[|cmds| - 1];
      AppendEffect(k, init, ch);
      assert c in cmds;
      OneAppend(Do(k, init), c, ch);
      if c.Append? && c.chain == ch {
        assert k.chains[ch] + (Appended(init, ch) + [c.rule]) == (k.chains[ch] + Appended(init, ch)) + [c.rule];
      }
    }
  }

  /** The strict rules of one family. */
  ghost function OfFamily(rules: seq<FwRule>, f: Family): seq<FwRule> {
    if rules == [] then []
    else
      var r := rules[|rules| - 1];
      OfFamily(rules[..|rules| - 1], f) + if FamilyOf(r) == f then [r] else []
  }

  lemma {:induction false} StrictAppended(rules: seq<FwRule>, f: Family)
    ensures Appended(StrictAppends(rules), StrictChain(f)) == OfFamily(rules, f)
  {
    if rules != [] {
      var init := rules[..|rules| - 1];
      assert StrictAppends(rules)[..|rules| - 1] == StrictAppends(init);
      StrictAppended(init, f);
    }
  }

  lemma DoStrictInit(k: Kernel, f: Family)
    requires k.BuiltIns()
    ensures var k' := Do(k, StrictInit(f));
            && k'.BuiltIns()
            && StrictChain(f) in k'.chains && k'.chains[StrictChain(f)] == []
            && StrictJump(f) in k'.chains[Forward(f)]
  {
    var c := StrictInit(f);
    DoThree(k, c[0], c[1], c[2]);
    assert c == [c[0], c[1], c[2]];
    hide Do;
  }

  /** Both strict chains end up holding exactly the strict rules of their family. */
  lemma StrictUpEffect(k: Kernel, cfg: Config, nets: seq<GatewayNet>, f: Family)
    requires k.BuiltIns()
    ensures var k' := Do(k, StrictUp(cfg, nets));
            && k'.BuiltIns()
            && StrictChain(f) in k'.chains && k'.chains[StrictChain(f)] == OfFamily(StrictEgress(cfg, nets), f)
            && StrictJump(f) in k'.chains[Forward(f)]
  {
    var rules := StrictEgress(cfg, nets);
    StrictEgressShape(cfg, nets);
    var appends := StrictAppends(rules);
    DoStrictInit(k, V4);
    var k4 := Do(k, StrictInit(V4));
    DoStrictInit(k4, V6);
    var k6 := Do(k4, StrictInit(V6));
    DoAppend(k, StrictInit(V4), StrictInit(V6));
    DoAppend(k, StrictInit(V4) + StrictInit(V6), appends);
    KeepsChain(k4, StrictInit(V6), StrictChain(V4));
    KeepsChain(k4, StrictInit(V6), Forward(V4));
    KeepsChain(k6, appends, Forward(f));
    KeepsBuiltIns(k6, appends);
    forall c | c in appends && TouchesChain(c, StrictChain(f))
      ensures c.Append? && (c.rule.FwRule? ==> !c.rule.target.Jump?)
    {
      var i :| 0 <= i < |rules| && c == appends[i];
      assert IsStrictRule(rules[i]);
    }
    AppendEffect(k6, appends, StrictChain(f));
    StrictAppended(rules, f);
  }
}
