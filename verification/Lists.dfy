/** Sequence helpers shared by the models: optional values, flat maps, counting,
    and removal of the first occurrence, as `iptables -D` and `ip rule del` do it. */
module Lists {

  datatype Option<+T> = None | Some(value: T)

  /** The concatenation of f over xs, in order: what a loop that appends f(x) for every x builds. */
  function FlatMap<A, B>(f: A -> seq<B>, xs: seq<A>): seq<B> {
    if xs == [] then [] else FlatMap(f, xs[..|xs| - 1]) + f(xs[|xs| - 1])
  }

  lemma FlatMapStep<A, B>(f: A -> seq<B>, xs: seq<A>, i: nat)
    requires i < |xs|
    ensures FlatMap(f, xs[..i + 1]) == FlatMap(f, xs[..i]) + f(xs[i])
  {
    assert xs[..i + 1][..i] == xs[..i];
  }

  lemma FlatMapEmpty<A, B>(f: A -> seq<B>, xs: seq<A>)
    ensures FlatMap(f, xs[..0]) == []
  {
  }

  lemma FlatMapWhole<A, B>(f: A -> seq<B>, xs: seq<A>)
    ensures FlatMap(f, xs[..|xs|]) == FlatMap(f, xs)
  {
    assert xs[..|xs|] == xs;
  }

  lemma {:induction false} InFlatMap<A, B>(f: A -> seq<B>, xs: seq<A>, y: B)
    ensures y in FlatMap(f, xs) <==> exists x :: x in xs && y in f(x)
  {
    if xs != [] {
      var init, last := xs[..|xs| - 1], xs[|xs| - 1];
      InFlatMap(f, init, y);
      assert xs == init + [last];
    }
  }

  lemma {:induction false} FlatMapAppend<A, B>(f: A -> seq<B>, xs: seq<A>, ys: seq<A>)
    ensures FlatMap(f, xs + ys) == FlatMap(f, xs) + FlatMap(f, ys)
  {
    if ys == [] {
      assert xs + ys == xs;
    } else {
      var init := ys[..|ys| - 1];
      FlatMapAppend(f, xs, init);
      assert (xs + ys)[..|xs + ys| - 1] == xs + init;
      assert FlatMap(f, xs + ys) == FlatMap(f, xs + init) + f(ys[|ys| - 1]);
    }
  }

  function RemoveFirst<T(==)>(s: seq<T>, x: T): seq<T> {
    if s == [] then []
    else if s[0] == x then s[1..]
    else [s[0]] + RemoveFirst(s[1..], x)
  }

  function Count<T(==)>(s: seq<T>, x: T): nat {
    if s == [] then 0 else (if s[0] == x then 1 else 0) + Count(s[1..], x)
  }

  lemma {:induction false} CountIn<T>(s: seq<T>, x: T)
    ensures Count(s, x) > 0 <==> x in s
  {
    if s != [] {
      CountIn(s[1..], x);
    }
  }

  lemma {:induction false} CountSnoc<T>(s: seq<T>, y: T, x: T)
    ensures Count(s + [y], x) == Count(s, x) + (if y == x then 1 else 0)
  {
    if s == [] {
      assert s + [y] == [y];
    } else {
      assert (s + [y])[1..] == s[1..] + [y];
      CountSnoc(s[1..], y, x);
    }
  }

  lemma {:induction false} CountRemoveFirst<T>(s: seq<T>, y: T, x: T)
    ensures Count(RemoveFirst(s, y), x) == Count(s, x) - (if y == x && y in s then 1 else 0)
  {
    if s != [] {
      if s[0] != y {
        CountRemoveFirst(s[1..], y, x);
        assert RemoveFirst(s, y)[1..] == RemoveFirst(s[1..], y);
      }
    }
  }

  /** s without the elements of drop. */
  function Strip<T(==)>(s: seq<T>, drop: set<T>): seq<T> {
    if s == [] then [] else (if s[0] in drop then [] else [s[0]]) + Strip(s[1..], drop)
  }

  lemma {:induction false} StripSnoc<T>(s: seq<T>, y: T, drop: set<T>)
    ensures Strip(s + [y], drop) == Strip(s, drop) + (if y in drop then [] else [y])
  {
    if s == [] {
      assert s + [y] == [y];
    } else {
      assert (s + [y])[1..] == s[1..] + [y];
      StripSnoc(s[1..], y, drop);
    }
  }

  lemma {:induction false} StripRemoveFirst<T>(s: seq<T>, y: T, drop: set<T>)
    requires y in drop
    ensures Strip(RemoveFirst(s, y), drop) == Strip(s, drop)
  {
    if s != [] && s[0] != y {
      StripRemoveFirst(s[1..], y, drop);
      assert RemoveFirst(s, y)[1..] == RemoveFirst(s[1..], y);
    }
  }

  /** Stripping more elements that do not occur changes nothing. */
  lemma {:induction false} StripAbsent<T>(s: seq<T>, small: set<T>, big: set<T>)
    requires small <= big
    requires forall x :: x in big && x in s ==> x in small
    ensures Strip(s, small) == Strip(s, big)
  {
    if s != [] {
      StripAbsent(s[1..], small, big);
    }
  }

  /** The distinct elements of xs, each where it first occurs: a loop with a "seen" set. */
  function Distinct<T(==)>(xs: seq<T>): seq<T> {
    if xs == [] then []
    else
      var init := Distinct(xs[..|xs| - 1]);
      if xs[|xs| - 1] in init then init else init + [xs[|xs| - 1]]
  }

  ghost predicate NoDuplicates<T>(xs: seq<T>) {
    forall i, j :: 0 <= i < j < |xs| ==> xs[i] != xs[j]
  }

  lemma {:induction false} DistinctElements<T>(xs: seq<T>)
    ensures NoDuplicates(Distinct(xs))
    ensures forall x :: x in Distinct(xs) <==> x in xs
  {
    if xs != [] {
      DistinctElements(xs[..|xs| - 1]);
      assert xs == xs[..|xs| - 1] + [xs[|xs| - 1]];
    }
  }

  /** A loop that keeps the first occurrence of every element, with a set of those already seen. */
  method CollectDistinct<T(==)>(xs: seq<T>) returns (result: seq<T>)
    ensures result == Distinct(xs)
    ensures NoDuplicates(result) && forall x :: x in result <==> x in xs
  {
    var seen: set<T> := {};
    result := [];
    for i := 0 to |xs|
      invariant result == Distinct(xs[..i])
      invariant forall x :: x in seen <==> x in result
    {
      assert xs[..i + 1][..i] == xs[..i];
      if xs[i] !in seen {
        seen := seen + {xs[i]};
        result := result + [xs[i]];
      }
    }
    assert xs[..|xs|] == xs;
    DistinctElements(xs);
  }
}
