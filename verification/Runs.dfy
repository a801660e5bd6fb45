/** Runs of a list of commands that stops at the first failure, with every state on the way. */
module Runs {

  /** Every state a run passes through, first to last, and whether it ran to the end. */
  datatype Outcomes<S> = Outcomes(trace: seq<S>, ok: bool)
  {
    ghost predicate Proper() { trace != [] }

    ghost function Final(): S
      requires Proper()
    {
      trace[|trace| - 1]
    }
  }

  /** step(s, c, t) is the effect of command c issued as the t-th one: the new state and success. */
  ghost function RunFrom<S, C>(step: (S, C, nat) -> (S, bool), s: S, cmds: seq<C>, t: nat): (r: Outcomes<S>)
    ensures r.Proper() && r.trace[0] == s
    ensures r.ok ==> |r.trace| == |cmds| + 1
    decreases |cmds|
  {
    if cmds == [] then Outcomes([s], true)
    else
      var (s', ok) := step(s, cmds[0], t);
      if !ok then Outcomes([s, s'], false)
      else
        var rest := RunFrom(step, s', cmds[1..], t + 1);
        Outcomes([s] + rest.trace, rest.ok)
  }

  lemma RunFromUnfold<S, C>(step: (S, C, nat) -> (S, bool), s: S, cmds: seq<C>, t: nat)
    requires cmds != []
    ensures var (s', ok) := step(s, cmds[0], t);
            var r := RunFrom(step, s, cmds, t);
            var rest := RunFrom(step, s', cmds[1..], t + 1);
            if ok then r == Outcomes([s] + rest.trace, rest.ok) && r.Final() == rest.Final()
            else r == Outcomes([s, s'], false)
  {
  }

  lemma {:induction false} RunFromKeeps<S(!new), C(!new)>(
      step: (S, C, nat) -> (S, bool), inv: S -> bool, s: S, cmds: seq<C>, t: nat)
    requires inv(s)
    requires forall x, c, i: nat :: inv(x) && c in cmds ==> inv(step(x, c, i).0)
    ensures forall x :: x in RunFrom(step, s, cmds, t).trace ==> inv(x)
    decreases |cmds|
  {
    if cmds != [] {
      var (s', ok) := step(s, cmds[0], t);
      assert inv(step(s, cmds[0], t).0);
      if ok {
        RunFromKeeps(step, inv, s', cmds[1..], t + 1);
      }
    }
  }

  /** A run depends on its step only for the commands it issues, when it issues them. */
  lemma {:induction false} RunFromAgrees<S(!new), C(!new)>(
      step: (S, C, nat) -> (S, bool), other: (S, C, nat) -> (S, bool), s: S, cmds: seq<C>, t: nat)
    requires forall x, c, i: nat :: t <= i < t + |cmds| ==> step(x, c, i) == other(x, c, i)
    ensures RunFrom(step, s, cmds, t) == RunFrom(other, s, cmds, t)
    decreases |cmds|
  {
    if cmds != [] {
      var (s', ok) := step(s, cmds[0], t);
      assert step(s, cmds[0], t) == other(s, cmds[0], t);
      if ok {
        RunFromAgrees(step, other, s', cmds[1..], t + 1);
      }
    }
  }

  lemma RunEmpty<S, C>(step: (S, C, nat) -> (S, bool), s: S, t: nat)
    ensures RunFrom(step, s, [], t) == Outcomes([s], true)
  {
  }

  /** A failure in a is the failure of a followed by b. */
  lemma {:induction false} RunAppendFails<S, C>(step: (S, C, nat) -> (S, bool), s: S, a: seq<C>, b: seq<C>, t: nat)
    requires !RunFrom(step, s, a, t).ok
    ensures RunFrom(step, s, a + b, t) == RunFrom(step, s, a, t)
    decreases |a|
  {
    RunEmpty(step, s, t);
    hide RunFrom;
    assert a != [];
    assert (a + b)[1..] == a[1..] + b && (a + b)[0] == a[0];
    RunFromUnfold(step, s, a, t);
    RunFromUnfold(step, s, a + b, t);
    var (s', ok) := step(s, a[0], t);
    if ok {
      RunAppendFails(step, s', a[1..], b, t + 1);
    }
  }

  ghost function Join<S>(ra: Outcomes<S>, rb: Outcomes<S>): Outcomes<S>
    requires rb.Proper()
  {
    Outcomes(ra.trace + rb.trace[1..], rb.ok)
  }

  lemma JoinCons<S>(s: S, ra: Outcomes<S>, rb: Outcomes<S>)
    requires rb.Proper()
    ensures Join(Outcomes([s] + ra.trace, ra.ok), rb) == Outcomes([s] + Join(ra, rb).trace, rb.ok)
  {
    assert [s] + (ra.trace + rb.trace[1..]) == ([s] + ra.trace) + rb.trace[1..];
  }

  /** When a succeeds, b starts where a ended. */
  lemma {:induction false} RunAppend<S, C>(
      step: (S, C, nat) -> (S, bool), s: S, a: seq<C>, b: seq<C>, t: nat, ra: Outcomes<S>, rb: Outcomes<S>)
    requires ra == RunFrom(step, s, a, t) && ra.ok
    requires rb == RunFrom(step, ra.Final(), b, t + |a|)
    ensures RunFrom(step, s, a + b, t) == Join(ra, rb)
    decreases |a|
  {
    RunEmpty(step, s, t);
    hide RunFrom;
    if a == [] {
      assert a + b == b;
      assert rb.trace == [s] + rb.trace[1..];
    } else {
      assert (a + b)[1..] == a[1..] + b && (a + b)[0] == a[0];
      RunFromUnfold(step, s, a, t);
      RunFromUnfold(step, s, a + b, t);
      var (s', ok) := step(s, a[0], t);
      var ra' := RunFrom(step, s', a[1..], t + 1);
      assert ra'.Final() == ra.Final();
      RunAppend(step, s', a[1..], b, t + 1, ra', rb);
      JoinCons(s, ra', rb);
    }
  }

  lemma JoinFinal<S>(ra: Outcomes<S>, rb: Outcomes<S>)
    requires ra.Proper() && rb.Proper() && rb.trace[0] == ra.Final()
    ensures Join(ra, rb).Proper() && Join(ra, rb).Final() == rb.Final()
  {
  }

  /** How a run of a followed by b ends: with the failure of a, or as b does from where a ended. */
  lemma TwoPhases<S, C>(step: (S, C, nat) -> (S, bool), s: S, a: seq<C>, b: seq<C>, t: nat, r: Outcomes<S>)
    returns (ra: Outcomes<S>, rb: Outcomes<S>)
    requires r == RunFrom(step, s, a + b, t)
    ensures ra == RunFrom(step, s, a, t)
    ensures !ra.ok ==> r == ra && rb == ra
    ensures ra.ok ==> rb == RunFrom(step, ra.Final(), b, t + |a|) && r.ok == rb.ok && r.Final() == rb.Final()
  {
    ra := RunFrom(step, s, a, t);
    if ra.ok {
      rb := RunFrom(step, ra.Final(), b, t + |a|);
      RunAppend(step, s, a, b, t, ra, rb);
      JoinFinal(ra, rb);
    } else {
      rb := ra;
      RunAppendFails(step, s, a, b, t);
    }
  }

  /** Three phases in a row. */
  lemma ThreePhases<S, C>(step: (S, C, nat) -> (S, bool), s: S, a: seq<C>, m: seq<C>, d: seq<C>, t: nat,
                          ra: Outcomes<S>, rm: Outcomes<S>, rd: Outcomes<S>, r: Outcomes<S>)
    requires r == RunFrom(step, s, a + (m + d), t) && ra == RunFrom(step, s, a, t)
    requires rm == RunFrom(step, ra.Final(), m, t + |a|) && rd == RunFrom(step, rm.Final(), d, t + |a| + |m|)
    ensures r.ok <==> ra.ok && rm.ok && rd.ok
    ensures r.Final() == if !ra.ok then ra.Final() else if !rm.ok then rm.Final() else rd.Final()
  {
    hide RunFrom;
    var x, rest := TwoPhases(step, s, a, m + d, t, r);
    if x.ok {
      var y, z := TwoPhases(step, x.Final(), m, d, t + |a|, rest);
    }
  }
}
