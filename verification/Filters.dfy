/** BGP filter chains: how one is evaluated, and what the chains built for a session let through. */
module Filters {
  import opened Lists
  import opened Network

  datatype Matcher = Exact | OrLonger | InRange(lo: nat, hi: nat)

  datatype Condition = Condition(prefix: Prefix, matcher: Matcher)

  datatype Action = Accept | Reject | SetNextHop(address: Address)

  /** A term without a condition applies to every route. */
  datatype Term = Term(condition: Option<Condition>, action: Action)

  type Filter = seq<Term>
  type Chain = seq<Filter>

  /** A path as the filters see it; redistributed paths come from the host's own routes. */
  datatype Path = Path(redistributed: bool, nextHop: Address)

  datatype Verdict = Accepted(path: Path) | Rejected | Undecided(path: Path)

  /** Prefix p lies within q. */
  predicate Within(p: Prefix, q: Prefix) {
    q.length <= p.length && Contains(q, Address(p.family, p.network))
  }

  predicate Matches(c: Condition, p: Prefix) {
    match c.matcher
    case Exact => p == c.prefix
    case OrLonger => Within(p, c.prefix)
    case InRange(lo, hi) => Within(p, c.prefix) && lo <= p.length <= hi
  }

  predicate Applies(t: Term, p: Prefix) {
    t.condition.Some? ==> Matches(t.condition.value, p)
  }

  function RunTerm(t: Term, p: Prefix, path: Path): Verdict {
    if !Applies(t, p) then Undecided(path)
    else
      match t.action
      case Accept => Accepted(path)
      case Reject => Rejected
      case SetNextHop(address) => Undecided(if path.redistributed then path.(nextHop := address) else path)
  }

  /** Terms in order; the first that accepts or rejects ends the evaluation. */
  function RunFilter(f: Filter, p: Prefix, path: Path): Verdict {
    if f == [] then Undecided(path)
    else
      var v := RunFilter(f[..|f| - 1], p, path);
      if v.Undecided? then RunTerm(f[|f| - 1], p, v.path) else v
  }

  function RunChain(c: Chain, p: Prefix, path: Path): Verdict {
    if c == [] then Undecided(path)
    else
      var v := RunFilter(c[0], p, path);
      if v.Undecided? then RunChain(c[1..], p, v.path) else v
  }

  lemma FilterSnoc(f: Filter, t: Term, p: Prefix, path: Path)
    ensures RunFilter(f + [t], p, path) ==
            var v := RunFilter(f, p, path); if v.Undecided? then RunTerm(t, p, v.path) else v
  {
    var all := f + [t];
    assert all[..|all| - 1] == f && all[|all| - 1] == t;
  }

  lemma ChainCons(f: Filter, c: Chain, p: Prefix, path: Path)
    ensures RunChain([f] + c, p, path) ==
            var v := RunFilter(f, p, path); if v.Undecided? then RunChain(c, p, v.path) else v
  {
    assert ([f] + c)[1..] == c;
  }

  // ---------------------------------------------------------------- the configured policy

  /** One configured filter; an unparsable prefix is None and the term is skipped. */
  datatype RouteFilter = RouteFilter(prefix: Option<Prefix>, exact: bool, accept: bool)

  predicate Selects(f: RouteFilter, p: Prefix) {
    f.prefix.Some? && if f.exact then p == f.prefix.value else Within(p, f.prefix.value)
  }

  /** What the first filter that selects the prefix says. */
  function FirstSays(filters: seq<RouteFilter>, p: Prefix): Option<bool> {
    if filters == [] then None
    else
      var init, last := FirstSays(filters[..|filters| - 1], p), filters[|filters| - 1];
      if init.Some? then init else if Selects(last, p) then Some(last.accept) else None
  }

  /** No filters accept everything; otherwise a route needs a first match that accepts. */
  predicate Policy(filters: seq<RouteFilter>, p: Prefix) {
    filters == [] || FirstSays(filters, p) == Some(true)
  }

  predicate WithinLimit(p: Prefix, max: nat) {
    max == 0 || p.length <= max
  }

  /** A network as it can occur in a routing table. */
  ghost predicate Proper(p: Prefix) {
    p.length <= Bits(p.family) && Within(p, DefaultRoute(p.family))
  }

  /** The filter at i is the first that selects the prefix. */
  ghost predicate FirstSelecting(filters: seq<RouteFilter>, p: Prefix, i: int) {
    0 <= i < |filters| && Selects(filters[i], p) && forall j :: 0 <= j < i ==> !Selects(filters[j], p)
  }

  /** A policy lets a prefix through if it has no filters or the first one that selects it accepts. */
  lemma PolicyMeans(filters: seq<RouteFilter>, p: Prefix)
    ensures Policy(filters, p) <==> filters == [] || exists i :: FirstSelecting(filters, p, i) && filters[i].accept
  {
    SaysMeans(filters, p);
    hide FirstSays;
    hide Selects;
  }

  lemma {:induction false} SaysMeans(filters: seq<RouteFilter>, p: Prefix)
    ensures match FirstSays(filters, p)
            case None => forall f :: f in filters ==> !Selects(f, p)
            case Some(b) => exists i :: FirstSelecting(filters, p, i) && filters[i].accept == b
  {
    hide Selects;
    if filters != [] {
      var init, n := filters[..|filters| - 1], |filters| - 1;
      SaysMeans(init, p);
      assert filters == init + [filters[n]];
      if FirstSays(init, p).Some? {
        var i :| FirstSelecting(init, p, i) && init[i].accept == FirstSays(init, p).value;
        assert FirstSelecting(filters, p, i);
      } else if Selects(filters[n], p) {
        assert forall j :: 0 <= j < n ==> filters[j] in init;
        assert FirstSelecting(filters, p, n);
      }
    }
  }

  lemma {:induction false} TruncateNested(v: nat, m: nat, n: nat)
    requires m <= n
    ensures Truncate(Truncate(v, m), n) == Truncate(v, n)
  {
    if m > 0 {
      TruncateNested(v / 2, m - 1, n - 1);
    }
  }

  /** A filter for a network selects that network alone, or every network all of whose addresses lie in
      it. */
  lemma SelectsMeans(f: RouteFilter, p: Prefix)
    requires p.length <= Bits(p.family) && Contains(p, Address(p.family, p.network))
    ensures Selects(f, p) <==>
              && f.prefix.Some?
              && var q := f.prefix.value;
                 if f.exact then p == q else q.length <= p.length && forall a :: Contains(p, a) ==> Contains(q, a)
  {
    hide Truncate;
    if f.prefix.Some? && !f.exact && f.prefix.value.length <= p.length {
      var q, own := f.prefix.value, Address(p.family, p.network);
      forall a | Contains(q, own) && Contains(p, a)
        ensures Contains(q, a)
      {
        TruncateNested(a.value, Bits(p.family) - p.length, Bits(p.family) - q.length);
      }
    }
  }

  function TermFor(f: RouteFilter): Term
    requires f.prefix.Some?
  {
    Term(Some(Condition(f.prefix.value, if f.exact then Exact else OrLonger)), if f.accept then Accept else Reject)
  }

  function Decided(b: Option<bool>, path: Path): Verdict {
    if b == None then Undecided(path) else if b.value then Accepted(path) else Rejected
  }

  const DEFAULT_REJECT := Term(None, Reject)
  const ACCEPT_ALL: Chain := [[Term(None, Accept)]]

  lemma OneFilter(f: Filter, p: Prefix, path: Path)
    ensures RunChain([f], p, path) == RunFilter(f, p, path)
  {
    assert [f][1..] == [] && [f][0] == f;
  }

  lemma OneTerm(t: Term, p: Prefix, path: Path)
    ensures RunFilter([t], p, path) == RunTerm(t, p, path)
  {
    FilterSnoc([], t, p, path);
    assert [] + [t] == [t];
  }

  /** The terms decide as the filters say. */
  ghost predicate Expresses(terms: Filter, filters: seq<RouteFilter>) {
    forall p, path :: RunFilter(terms, p, path) == Decided(FirstSays(filters, p), path)
  }

  lemma SaysSnoc(filters: seq<RouteFilter>, f: RouteFilter, p: Prefix)
    ensures FirstSays(filters + [f], p) ==
            var init := FirstSays(filters, p);
            if init.Some? then init else if Selects(f, p) then Some(f.accept) else None
  {
    var all := filters + [f];
    assert all[..|all| - 1] == filters && all[|all| - 1] == f;
  }

  lemma OneMoreTerm(terms: Filter, filters: seq<RouteFilter>, f: RouteFilter)
    requires Expresses(terms, filters)
    ensures Expresses(if f.prefix.Some? then terms + [TermFor(f)] else terms, filters + [f])
  {
    hide RunFilter;
    hide FirstSays;
    hide Within;
    var after := if f.prefix.Some? then terms + [TermFor(f)] else terms;
    forall p, path
      ensures RunFilter(after, p, path) == Decided(FirstSays(filters + [f], p), path)
    {
      assert RunFilter(terms, p, path) == Decided(FirstSays(filters, p), path);
      SaysSnoc(filters, f, p);
      if f.prefix.Some? {
        FilterSnoc(terms, TermFor(f), p, path);
      }
    }
  }

  lemma WithDefaultReject(terms: Filter, filters: seq<RouteFilter>, chain: Chain)
    requires Expresses(terms, filters) && filters != [] && chain == [terms + [DEFAULT_REJECT]]
    ensures forall p, path :: RunChain(chain, p, path) == if Policy(filters, p) then Accepted(path) else Rejected
  {
    hide RunFilter;
    hide RunChain;
    hide FirstSays;
    forall p, path
      ensures RunChain(chain, p, path) == if Policy(filters, p) then Accepted(path) else Rejected
    {
      assert RunFilter(terms, p, path) == Decided(FirstSays(filters, p), path);
      OneFilter(terms + [DEFAULT_REJECT], p, path);
      FilterSnoc(terms, DEFAULT_REJECT, p, path);
    }
  }

  lemma AcceptsAll(p: Prefix, path: Path)
    ensures RunChain(ACCEPT_ALL, p, path) == Accepted(path)
  {
    OneFilter([Term(None, Accept)], p, path);
    OneTerm(Term(None, Accept), p, path);
  }

  /** A session whose chain starts by making the local session address the next hop is one the
      host's own routes are redistributed to. */
  predicate Redistributes(chain: Chain) {
    chain != [] && chain[0] != [] && chain[0][0].action.SetNextHop?
  }

  /** The chain of a direction: exactly the configured policy, and always a decision. */
  method BuildFilterChain(filters: seq<RouteFilter>) returns (chain: Chain)
    ensures forall p, path :: RunChain(chain, p, path) == if Policy(filters, p) then Accepted(path) else Rejected
    ensures !Redistributes(chain)
  {
    hide RunFilter;
    hide RunChain;
    if filters == [] {
      chain := ACCEPT_ALL;
      forall p, path
        ensures RunChain(chain, p, path) == Accepted(path)
      {
        AcceptsAll(p, path);
      }
      return;
    }
    var terms: Filter := [];
    NothingSaid();
    hide Expresses;
    for i := 0 to |filters|
      invariant terms != [] ==> !terms[0].action.SetNextHop?
      invariant Expresses(terms, filters[..i])
    {
      assert filters[..i + 1] == filters[..i] + [filters[i]];
      OneMoreTerm(terms, filters[..i], filters[i]);
      if filters[i].prefix.Some? {
        terms := terms + [TermFor(filters[i])];
      }
    }
    assert filters[..|filters|] == filters;
    chain := [terms + [DEFAULT_REJECT]];
    WithDefaultReject(terms, filters, chain);
  }

  lemma NothingSaid()
    ensures Expresses([], [])
  {
  }

  function TooLong(f: Family, max: nat): Term {
    Term(Some(Condition(DefaultRoute(f), InRange(max + 1, Bits(f)))), Reject)
  }

  lemma LimitTerms(terms: Filter, max: nat, p: Prefix, path: Path)
    requires Proper(p) && max > 0
    requires terms == (if max < 32 then [TooLong(V4, max), TooLong(V6, max)] else if max < 128 then [TooLong(V6, max)]
             else [])
    ensures RunFilter(terms, p, path) == if WithinLimit(p, max) then Undecided(path) else Rejected
  {
    if max < 32 {
      assert [TooLong(V4, max)] + [TooLong(V6, max)] == terms;
      FilterSnoc([TooLong(V4, max)], TooLong(V6, max), p, path);
      OneTerm(TooLong(V4, max), p, path);
    } else if max < 128 {
      OneTerm(TooLong(V6, max), p, path);
    }
  }

  /** Puts a filter in front that rejects prefixes longer than max; 0 means no limit. */
  method PrependMaxPrefixLength(chain: Chain, max: nat) returns (limited: Chain)
    ensures forall p, path :: Proper(p) ==>
              RunChain(limited, p, path) == if WithinLimit(p, max) then RunChain(chain, p, path) else Rejected
    ensures !Redistributes(chain) ==> !Redistributes(limited)
  {
    if max == 0 {
      return chain;
    }
    var terms: Filter := [];
    var families := [V4, V6];
    for i := 0 to 2
      invariant i >= 1 ==> terms == if i == 1 then (if max < 32 then [TooLong(V4, max)] else [])
                           else if max < 32 then [TooLong(V4, max), TooLong(V6, max)] else if max < 128
                               then [TooLong(V6, max)] else []
      invariant i == 0 ==> terms == []
    {
      if max < Bits(families[i]) {
        terms := terms + [TooLong(families[i], max)];
      }
    }
    limited := if terms == [] then chain else [terms] + chain;
    forall p, path | Proper(p)
      ensures RunChain(limited, p, path) == if WithinLimit(p, max) then RunChain(chain, p, path) else Rejected
    {
      LimitTerms(terms, max, p, path);
      ChainCons(terms, chain, p, path);
    }
  }

  /** Exactly the received routes a session with these settings lets in, unchanged. */
  ghost predicate ImportsExactly(chain: Chain, filters: seq<RouteFilter>, max: nat) {
    forall p, path :: Proper(p) ==>
      RunChain(chain, p, path) ==
        if (max == 0 || p.length <= max) && Policy(filters, p) then Accepted(path) else Rejected
  }

  function LocalPath(path: Path, nextHop: Address): Path {
    if path.redistributed then path.(nextHop := nextHop) else path
  }

  /** Exactly the routes a session with these settings may be sent, and with which next hop. */
  ghost predicate ExportsExactly(chain: Chain, filters: seq<RouteFilter>, redistribute: Option<Address>, max: nat,
                                 locals: seq<Prefix>) {
    forall p, path :: Proper(p) ==>
      RunChain(chain, p, path) ==
        if (redistribute.Some? || p !in locals) && WithinLimit(p, max) && Policy(filters, p)
        then Accepted(if redistribute.Some? then LocalPath(path, redistribute.value) else path)
        else Rejected
  }

  function DenyTerm(p: Prefix): Term {
    Term(Some(Condition(p, Exact)), Reject)
  }

  /** The export chain: a session that takes local routes rewrites their next hop; any other rejects
      every local prefix before its own policy is asked. */
  method BuildExportFilterChain(filters: seq<RouteFilter>, redistribute: Option<Address>, max: nat, locals: seq<Prefix>)
    returns (chain: Chain)
    ensures ExportsExactly(chain, filters, redistribute, max, locals)
    ensures Redistributes(chain) <==> redistribute.Some?
  {
    var policy := BuildFilterChain(filters);
    var limited := PrependMaxPrefixLength(policy, max);
    if redistribute.Some? {
      var hop := Term(None, SetNextHop(redistribute.value));
      chain := [[hop]] + limited;
      forall p, path | Proper(p)
        ensures RunChain(chain, p, path) == RunChain(limited, p, LocalPath(path, redistribute.value))
      {
        ChainCons([hop], limited, p, path);
        OneTerm(hop, p, path);
      }
      return;
    }
    var terms: Filter := [];
    for i := 0 to |locals|
      invariant |terms| == i && forall j :: 0 <= j < i ==> terms[j] == DenyTerm(locals[j])
      invariant forall p, path :: RunFilter(terms, p, path) == if p in locals[..i] then Rejected else Undecided(path)
    {
      ghost var before := terms;
      terms := terms + [DenyTerm(locals[i])];
      forall p, path
        ensures RunFilter(terms, p, path) == if p in locals[..i + 1] then Rejected else Undecided(path)
      {
        FilterSnoc(before, DenyTerm(locals[i]), p, path);
        assert locals[..i + 1] == locals[..i] + [locals[i]];
      }
    }
    assert locals[..|locals|] == locals;
    chain := if terms == [] then limited else [terms] + limited;
    forall p, path | Proper(p)
      ensures RunChain(chain, p, path) == if p in locals then Rejected else RunChain(limited, p, path)
    {
      ChainCons(terms, limited, p, path);
    }
  }
}
