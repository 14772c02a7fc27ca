/** Order-preserving sequence operations, and how they behave under concatenation,
    membership and permutation.  They recurse on the last element, so that a loop which
    has handled `s[..i]` unfolds them by one step. */
module Seqs {

  datatype Option<+T> = None | Some(value: T)

  /** A value the surroundings supplied, or why they could not. */
  datatype Attempt<+T> = Got(value: T) | Lost(cause: string)

  function Filter<T>(p: T -> bool, s: seq<T>): seq<T> {
    if s == [] then []
    else Filter(p, s[..|s| - 1]) + if p(s[|s| - 1]) then [s[|s| - 1]] else []
  }

  function Map<A, B>(f: A -> B, s: seq<A>): (r: seq<B>)
    ensures |r| == |s|
    ensures forall i :: 0 <= i < |s| ==> r[i] == f(s[i])
  {
    if s == [] then [] else Map(f, s[..|s| - 1]) + [f(s[|s| - 1])]
  }

  function FlatMap<A, B>(f: A -> seq<B>, s: seq<A>): seq<B> {
    if s == [] then [] else FlatMap(f, s[..|s| - 1]) + f(s[|s| - 1])
  }

  lemma PrefixStep<T>(s: seq<T>, i: nat)
    requires i < |s|
    ensures s[..i + 1][..i] == s[..i] && s[..i + 1] == s[..i] + [s[i]]
  {
  }

  lemma FilterSnoc<T>(p: T -> bool, s: seq<T>, x: T)
    ensures Filter(p, s + [x]) == Filter(p, s) + if p(x) then [x] else []
  {
    assert (s + [x])[..|s|] == s;
  }

  lemma MapSnoc<A, B>(f: A -> B, s: seq<A>, x: A)
    ensures Map(f, s + [x]) == Map(f, s) + [f(x)]
  {
  }

  lemma FlatMapSnoc<A, B>(f: A -> seq<B>, s: seq<A>, x: A)
    ensures FlatMap(f, s + [x]) == FlatMap(f, s) + f(x)
  {
    assert (s + [x])[..|s|] == s;
  }

  lemma FlatMapOne<A, B>(f: A -> seq<B>, x: A)
    ensures FlatMap(f, [x]) == f(x)
  {
    assert [x][..0] == [];
    assert FlatMap(f, [x]) == [] + f(x);
  }

  lemma AppendAssoc<T>(a: seq<T>, b: seq<T>, c: seq<T>)
    ensures (a + b) + c == a + (b + c)
  {
  }

  lemma {:induction false} FilterConcat<T>(p: T -> bool, s: seq<T>, t: seq<T>)
    ensures Filter(p, s + t) == Filter(p, s) + Filter(p, t)
  {
    if t == [] {
      assert s + t == s;
    } else {
      var init, x := t[..|t| - 1], t[|t| - 1];
      assert t == init + [x];
      FilterConcat(p, s, init);
      AppendAssoc(s, init, [x]);
      FilterSnoc(p, s + init, x);
      AppendAssoc(Filter(p, s), Filter(p, init), if p(x) then [x] else []);
    }
  }

  lemma {:induction false} MapConcat<A, B>(f: A -> B, s: seq<A>, t: seq<A>)
    ensures Map(f, s + t) == Map(f, s) + Map(f, t)
  {
  }

  lemma {:induction false} FlatMapConcat<A, B>(f: A -> seq<B>, s: seq<A>, t: seq<A>)
    ensures FlatMap(f, s + t) == FlatMap(f, s) + FlatMap(f, t)
  {
    if t == [] {
      assert s + t == s;
    } else {
      var init, x := t[..|t| - 1], t[|t| - 1];
      assert t == init + [x];
      FlatMapConcat(f, s, init);
      AppendAssoc(s, init, [x]);
      FlatMapSnoc(f, s + init, x);
      AppendAssoc(FlatMap(f, s), FlatMap(f, init), f(x));
    }
  }

  lemma {:induction false} FilterMember<T>(p: T -> bool, s: seq<T>, x: T)
    ensures x in Filter(p, s) <==> x in s && p(x)
  {
    if s != [] {
      FilterMember(p, s[..|s| - 1], x);
      assert s == s[..|s| - 1] + [s[|s| - 1]];
    }
  }

  lemma FilterMembers<T>(p: T -> bool, s: seq<T>)
    ensures forall x :: x in Filter(p, s) <==> x in s && p(x)
  {
    forall x ensures x in Filter(p, s) <==> x in s && p(x) { FilterMember(p, s, x); }
  }

  lemma MapMember<A, B>(f: A -> B, s: seq<A>, y: B)
    ensures y in Map(f, s) <==> exists x :: x in s && f(x) == y
  {
    if y in Map(f, s) {
      var i :| 0 <= i < |s| && Map(f, s)[i] == y;
      assert s[i] in s;
    }
    if x :| x in s && f(x) == y {
      var i :| 0 <= i < |s| && s[i] == x;
      assert Map(f, s)[i] in Map(f, s);
    }
  }

  lemma {:induction false} FlatMapMember<A, B>(f: A -> seq<B>, s: seq<A>, y: B)
    ensures y in FlatMap(f, s) <==> exists x :: x in s && y in f(x)
  {
    if s != [] {
      FlatMapMember(f, s[..|s| - 1], y);
      assert s == s[..|s| - 1] + [s[|s| - 1]];
    }
  }

  lemma {:induction false} FilterSame<T>(p: T -> bool, q: T -> bool, s: seq<T>)
    requires forall x :: x in s ==> p(x) == q(x)
    ensures Filter(p, s) == Filter(q, s)
  {
    if s != [] {
      assert forall x :: x in s[..|s| - 1] ==> x in s;
      assert s[|s| - 1] in s;
      FilterSame(p, q, s[..|s| - 1]);
    }
  }

  lemma {:induction false} FilterAll<T>(p: T -> bool, s: seq<T>)
    requires forall x :: x in s ==> p(x)
    ensures Filter(p, s) == s
  {
    if s != [] {
      assert forall x :: x in s[..|s| - 1] ==> x in s;
      assert s[|s| - 1] in s;
      FilterAll(p, s[..|s| - 1]);
      assert s == s[..|s| - 1] + [s[|s| - 1]];
    }
  }

  lemma {:induction false} FilterNothing<T>(p: T -> bool, s: seq<T>)
    requires forall x :: x in s ==> !p(x)
    ensures Filter(p, s) == []
  {
    if s != [] {
      assert forall x :: x in s[..|s| - 1] ==> x in s;
      assert s[|s| - 1] in s;
      FilterNothing(p, s[..|s| - 1]);
    }
  }

  /** Two filters in a row keep what both keep. */
  lemma {:induction false} FilterTwice<T>(p: T -> bool, q: T -> bool, r: T -> bool, s: seq<T>)
    requires forall x :: x in s ==> r(x) == (p(x) && q(x))
    ensures Filter(q, Filter(p, s)) == Filter(r, s)
  {
    if s != [] {
      var init, x := s[..|s| - 1], s[|s| - 1];
      assert forall y :: y in init ==> y in s;
      assert x in s;
      FilterTwice(p, q, r, init);
      if p(x) {
        FilterSnoc(q, Filter(p, init), x);
      } else {
        assert Filter(p, s) == Filter(p, init);
      }
    }
  }

  /** Pointwise smaller contributions give a smaller multiset. */
  lemma {:induction false} FlatMapMono<A, B>(f: A -> seq<B>, g: A -> seq<B>, s: seq<A>)
    requires forall x :: x in s ==> multiset(f(x)) <= multiset(g(x))
    ensures multiset(FlatMap(f, s)) <= multiset(FlatMap(g, s))
  {
    if s != [] {
      assert forall y :: y in s[..|s| - 1] ==> y in s;
      assert s[|s| - 1] in s;
      FlatMapMono(f, g, s[..|s| - 1]);
    }
  }

  function Emit<A, B>(f: A -> B, p: A -> bool): A -> seq<B> {
    x => if p(x) then [f(x)] else []
  }

  lemma {:induction false} MapFilterIsFlatMap<A, B>(f: A -> B, p: A -> bool, s: seq<A>)
    ensures Map(f, Filter(p, s)) == FlatMap(Emit(f, p), s)
  {
    if s != [] {
      MapFilterIsFlatMap(f, p, s[..|s| - 1]);
      MapSnoc(f, Filter(p, s[..|s| - 1]), s[|s| - 1]);
    }
  }

  lemma MapFilterSnoc<A, B>(f: A -> B, p: A -> bool, s: seq<A>, x: A)
    ensures Map(f, Filter(p, s + [x])) == Map(f, Filter(p, s)) + if p(x) then [f(x)] else []
  {
    FilterSnoc(p, s, x);
    MapSnoc(f, Filter(p, s), x);
  }

  /** A stronger filter keeps a sub-multiset, and mapping the survivors preserves that. */
  lemma MapFilterMono<A, B>(f: A -> B, p: A -> bool, q: A -> bool, s: seq<A>)
    requires forall x :: x in s && p(x) ==> q(x)
    ensures multiset(Map(f, Filter(p, s))) <= multiset(Map(f, Filter(q, s)))
  {
    MapFilterIsFlatMap(f, p, s);
    MapFilterIsFlatMap(f, q, s);
    FlatMapMono(Emit(f, p), Emit(f, q), s);
  }

  lemma {:induction false} FlatMapSame<A, B>(f: A -> seq<B>, g: A -> seq<B>, s: seq<A>)
    requires forall x :: x in s ==> f(x) == g(x)
    ensures FlatMap(f, s) == FlatMap(g, s)
  {
    if s != [] {
      assert forall y :: y in s[..|s| - 1] ==> y in s;
      assert s[|s| - 1] in s;
      FlatMapSame(f, g, s[..|s| - 1]);
    }
  }

  lemma {:induction false} FlatMapPointwise<A, B>(f: A -> seq<B>, s: seq<A>, t: seq<A>)
    requires |s| == |t| && forall i :: 0 <= i < |s| ==> f(s[i]) == f(t[i])
    ensures FlatMap(f, s) == FlatMap(f, t)
  {
    if s != [] { FlatMapPointwise(f, s[..|s| - 1], t[..|t| - 1]); }
  }

  /** Dropping elements that contribute nothing changes nothing. */
  lemma {:induction false} FlatMapFilter<A, B>(f: A -> seq<B>, p: A -> bool, s: seq<A>)
    requires forall x :: x in s && !p(x) ==> f(x) == []
    ensures FlatMap(f, Filter(p, s)) == FlatMap(f, s)
  {
    if s != [] {
      var init, x := s[..|s| - 1], s[|s| - 1];
      assert forall y :: y in init ==> y in s;
      assert x in s;
      FlatMapFilter(f, p, init);
      if p(x) {
        FlatMapSnoc(f, Filter(p, init), x);
      } else {
        assert Filter(p, s) == Filter(p, init);
        assert FlatMap(f, s) == FlatMap(f, init);
      }
    }
  }

  lemma AroundIndex<T>(s: seq<T>, k: nat)
    requires k < |s|
    ensures s == (s[..k] + [s[k]]) + s[k + 1..]
  {
  }

  lemma FlatMapAround<A, B>(f: A -> seq<B>, s: seq<A>, k: nat)
    requires k < |s|
    ensures FlatMap(f, s) == FlatMap(f, s[..k]) + f(s[k]) + FlatMap(f, s[k + 1..])
  {
    AroundIndex(s, k);
    FlatMapConcat(f, s[..k] + [s[k]], s[k + 1..]);
    FlatMapSnoc(f, s[..k], s[k]);
  }

  /** Removing one occurrence of `x` from `s`. */
  lemma SplitAtMember<T>(s: seq<T>, x: T) returns (i: nat, rest: seq<T>)
    requires x in s
    ensures i < |s| && s[i] == x && rest == s[..i] + s[i + 1..]
    ensures multiset(s) == multiset(rest) + multiset{x}
  {
    i :| 0 <= i < |s| && s[i] == x;
    rest := s[..i] + s[i + 1..];
    assert s == s[..i] + [x] + s[i + 1..];
  }

  lemma MultisetCancel<T>(a: multiset<T>, b: multiset<T>, c: multiset<T>)
    requires a + c == b + c
    ensures a == b
  {
    assert a == (a + c) - c;
    assert b == (b + c) - c;
  }

  lemma MultisetMono<T>(a: multiset<T>, b: multiset<T>, c: multiset<T>, d: multiset<T>)
    requires a <= b && c <= d
    ensures a + c <= b + d
  {
  }

  /** What `FlatMap` collects depends on its input only up to order. */
  lemma {:induction false} FlatMapPermutation<A, B>(f: A -> seq<B>, s: seq<A>, t: seq<A>)
    requires multiset(s) == multiset(t)
    ensures multiset(FlatMap(f, s)) == multiset(FlatMap(f, t))
    decreases |s|
  {
    if s == [] {
      assert |t| == |multiset(t)| == |multiset(s)| == 0;
    } else {
      var init, x := s[..|s| - 1], s[|s| - 1];
      assert s == init + [x];
      assert x in multiset(s) && x in multiset(t);
      var i, rest := SplitAtMember(t, x);
      assert multiset(s) == multiset(init) + multiset{x};
      MultisetCancel(multiset(init), multiset(rest), multiset{x});
      FlatMapPermutation(f, init, rest);
      FlatMapAround(f, t, i);
      FlatMapConcat(f, t[..i], t[i + 1..]);
    }
  }

  function Single<T>(p: T -> bool): T -> seq<T> {
    x => if p(x) then [x] else []
  }

  lemma {:induction false} FilterIsFlatMap<T>(p: T -> bool, s: seq<T>)
    ensures Filter(p, s) == FlatMap(Single(p), s)
  {
    if s != [] { FilterIsFlatMap(p, s[..|s| - 1]); }
  }

  lemma FilterPermutation<T>(p: T -> bool, s: seq<T>, t: seq<T>)
    requires multiset(s) == multiset(t)
    ensures multiset(Filter(p, s)) == multiset(Filter(p, t))
    ensures |Filter(p, s)| == |Filter(p, t)|
  {
    FilterIsFlatMap(p, s);
    FilterIsFlatMap(p, t);
    FlatMapPermutation(Single(p), s, t);
    assert |multiset(Filter(p, s))| == |Filter(p, s)| && |multiset(Filter(p, t))| == |Filter(p, t)|;
  }

  lemma PermutationMembers<T>(s: seq<T>, t: seq<T>)
    requires multiset(s) == multiset(t)
    ensures forall x :: x in s <==> x in t
  {
    forall x ensures x in s <==> x in t {
      assert x in s <==> x in multiset(s);
      assert x in t <==> x in multiset(t);
    }
  }

  /** What ranging over a Go map collects: contributions summed over its keys. */
  ghost function SumOver<K, V>(f: K -> multiset<V>, keys: set<K>): multiset<V> {
    if keys == {} then multiset{}
    else
      var k :| k in keys;
      f(k) + SumOver(f, keys - {k})
  }

  lemma {:induction false} SumOverAdd<K, V>(f: K -> multiset<V>, keys: set<K>, k: K)
    requires k !in keys
    ensures SumOver(f, keys + {k}) == SumOver(f, keys) + f(k)
  {
    var all := keys + {k};
    var pick :| pick in all && SumOver(f, all) == f(pick) + SumOver(f, all - {pick});
    if pick == k {
      assert all - {k} == keys;
    } else {
      assert all - {pick} == (keys - {pick}) + {k};
      SumOverAdd(f, keys - {pick}, k);
      SumOverAdd(f, keys - {pick}, pick);
      assert (keys - {pick}) + {pick} == keys;
    }
  }

  lemma {:induction false} SumOverMember<K, V>(f: K -> multiset<V>, keys: set<K>, v: V)
    ensures v in SumOver(f, keys) <==> exists k :: k in keys && v in f(k)
  {
    if keys != {} {
      var k :| k in keys && SumOver(f, keys) == f(k) + SumOver(f, keys - {k});
      SumOverMember(f, keys - {k}, v);
    }
  }

  lemma {:induction false} SumOverMono<K, V>(f: K -> multiset<V>, g: K -> multiset<V>, keys: set<K>)
    requires forall k :: k in keys ==> f(k) <= g(k)
    ensures SumOver(f, keys) <= SumOver(g, keys)
  {
    if keys != {} {
      var k :| k in keys && SumOver(f, keys) == f(k) + SumOver(f, keys - {k});
      SumOverMono(f, g, keys - {k});
      SumOverAdd(g, keys - {k}, k);
      assert (keys - {k}) + {k} == keys;
      MultisetMono(f(k), g(k), SumOver(f, keys - {k}), SumOver(g, keys - {k}));
    }
  }

  /** A multiset, element by element. */
  ghost function Image<A, B>(f: A -> B, m: multiset<A>): multiset<B>
    decreases |m|
  {
    if m == multiset{} then multiset{}
    else
      var x :| x in m;
      Image(f, m - multiset{x}) + multiset{f(x)}
  }

  lemma BagBack<T>(m: multiset<T>, x: T)
    ensures (m + multiset{x}) - multiset{x} == m
  {
  }

  lemma BagSwap<T>(m: multiset<T>, x: T, y: T)
    requires y in m + multiset{x} && y != x
    ensures (m + multiset{x}) - multiset{y} == (m - multiset{y}) + multiset{x}
    ensures (m - multiset{y}) + multiset{y} == m
    ensures |m - multiset{y}| < |m|
  {
  }

  lemma {:induction false} ImageAdd<A, B>(f: A -> B, m: multiset<A>, x: A)
    ensures Image(f, m + multiset{x}) == Image(f, m) + multiset{f(x)}
    decreases |m|
  {
    var all := m + multiset{x};
    var pick :| pick in all && Image(f, all) == Image(f, all - multiset{pick}) + multiset{f(pick)};
    if pick == x {
      BagBack(m, x);
    } else {
      BagSwap(m, x, pick);
      ImageAdd(f, m - multiset{pick}, x);
      ImageAdd(f, m - multiset{pick}, pick);
    }
  }

  lemma {:induction false} ImageFixed<T>(f: T -> T, m: multiset<T>)
    requires forall x :: x in m ==> f(x) == x
    ensures Image(f, m) == m
    decreases |m|
  {
    if m != multiset{} {
      var x :| x in m && Image(f, m) == Image(f, m - multiset{x}) + multiset{f(x)};
      ImageFixed(f, m - multiset{x});
    }
  }

  ghost function Places<T>(p: T -> bool, s: seq<T>): set<int> {
    set i | 0 <= i < |s| && p(s[i])
  }

  lemma PlacesSnoc<T>(p: T -> bool, s: seq<T>, x: T)
    ensures Places(p, s + [x]) == Places(p, s) + (if p(x) then {|s|} else {})
    ensures |s| !in Places(p, s)
  {
    forall i | 0 <= i < |s| ensures (s + [x])[i] == s[i] {}
  }

  /** As many survive a filter as there are places it holds at. */
  lemma {:induction false} FilterPlaces<T>(p: T -> bool, s: seq<T>)
    ensures |Filter(p, s)| == |Places(p, s)|
  {
    if s != [] {
      var init, x := s[..|s| - 1], s[|s| - 1];
      assert s == init + [x];
      FilterPlaces(p, init);
      PlacesSnoc(p, init, x);
    }
  }

  lemma {:induction false} ImageOf<A, B>(f: A -> B, m: multiset<A>)
    ensures |Image(f, m)| == |m|
    ensures forall x :: x in m ==> f(x) in Image(f, m)
    decreases |m|
  {
    if m != multiset{} {
      var x :| x in m && Image(f, m) == Image(f, m - multiset{x}) + multiset{f(x)};
      var rest := m - multiset{x};
      assert |rest| == |m| - 1;
      ImageOf(f, rest);
      forall y | y in m ensures f(y) in Image(f, m) {
        if y != x { assert y in rest; }
      }
    }
  }
}
