/** sort.Strings over the keys of a Go map: the one increasing listing of a set. */
module Sorting {

  predicate Less(a: string, b: string) {
    if b == "" then false
    else if a == "" then true
    else a[0] < b[0] || (a[0] == b[0] && Less(a[1..], b[1..]))
  }

  lemma {:induction false} LessTrichotomy(a: string, b: string)
    ensures Less(a, b) || a == b || Less(b, a)
    ensures !(Less(a, b) && Less(b, a))
    ensures !Less(a, a)
  {
    if a != "" { LessTrichotomy(a[1..], a[1..]); }
    if a != "" && b != "" {
      LessTrichotomy(a[1..], b[1..]);
      assert a == [a[0]] + a[1..] && b == [b[0]] + b[1..];
    }
  }

  lemma {:induction false} LessTransitive(a: string, b: string, c: string)
    requires Less(a, b) && Less(b, c)
    ensures Less(a, c)
  {
    if a != "" && a[0] == b[0] == c[0] { LessTransitive(a[1..], b[1..], c[1..]); }
  }

  ghost predicate Increasing(xs: seq<string>) {
    forall i, j :: 0 <= i < j < |xs| ==> Less(xs[i], xs[j])
  }

  ghost predicate Lists(xs: seq<string>, s: set<string>) {
    Increasing(xs) && forall x :: x in xs <==> x in s
  }

  lemma {:induction false} ListingUnique(xs: seq<string>, ys: seq<string>, s: set<string>)
    requires Lists(xs, s) && Lists(ys, s)
    ensures xs == ys
    decreases |xs|
  {
    ListingEmpty(xs, s);
    ListingEmpty(ys, s);
    if xs != [] {
      assert xs[0] in ys;
      assert ys[0] in xs;
      LessTrichotomy(xs[0], ys[0]);
      LessTrichotomy(xs[0], xs[0]);
      assert xs[0] == ys[0];
      ListingTail(xs, s);
      ListingTail(ys, s);
      ListingUnique(xs[1..], ys[1..], s - {xs[0]});
    }
  }

  lemma ListingEmpty(xs: seq<string>, s: set<string>)
    requires Lists(xs, s)
    ensures xs == [] <==> s == {}
  {
    if xs != [] { assert xs[0] in s; }
  }

  lemma ListingTail(xs: seq<string>, s: set<string>)
    requires Lists(xs, s) && xs != []
    ensures Lists(xs[1..], s - {xs[0]})
  {
    forall x ensures x in xs[1..] <==> x in s - {xs[0]} {
      if x in xs[1..] {
        var i :| 1 <= i < |xs| && xs[i] == x;
        LessTrichotomy(xs[0], xs[i]);
        assert xs[0] != x && x in xs;
      } else {
        assert xs == [xs[0]] + xs[1..];
      }
    }
  }

  function Insert(x: string, xs: seq<string>): seq<string> {
    if xs == [] then [x]
    else if Less(x, xs[0]) then [x] + xs
    else [xs[0]] + Insert(x, xs[1..])
  }

  lemma {:induction false} InsertMembers(x: string, xs: seq<string>)
    ensures forall y :: y in Insert(x, xs) <==> y == x || y in xs
  {
    if xs != [] && !Less(x, xs[0]) {
      InsertMembers(x, xs[1..]);
      assert xs == [xs[0]] + xs[1..];
    }
  }

  lemma {:induction false} InsertIncreasing(x: string, xs: seq<string>)
    requires Increasing(xs) && x !in xs
    ensures Increasing(Insert(x, xs))
  {
    if xs != [] {
      if Less(x, xs[0]) {
        forall j | 0 <= j < |xs| ensures Less(x, xs[j]) {
          if j > 0 { LessTransitive(x, xs[0], xs[j]); }
        }
      } else {
        LessTrichotomy(x, xs[0]);
        InsertIncreasing(x, xs[1..]);
        InsertMembers(x, xs[1..]);
        forall y | y in Insert(x, xs[1..]) ensures Less(xs[0], y) {
          if y != x {
            var j :| 0 <= j < |xs[1..]| && xs[1..][j] == y;
            assert xs[j + 1] == y;
          }
        }
      }
    }
  }

  lemma InsertLists(x: string, xs: seq<string>, s: set<string>)
    requires Lists(xs, s) && x !in s
    ensures Lists(Insert(x, xs), s + {x})
  {
    InsertMembers(x, xs);
    InsertIncreasing(x, xs);
  }

  ghost function Sorted(s: set<string>): (xs: seq<string>)
    ensures Lists(xs, s)
  {
    if s == {} then []
    else
      var x :| x in s;
      var rest := Sorted(s - {x});
      InsertLists(x, rest, s - {x});
      assert (s - {x}) + {x} == s;
      Insert(x, rest)
  }

  /** Reads a set out in whatever order the map yields it, then orders it. */
  method SortStrings(s: set<string>) returns (xs: seq<string>)
    ensures xs == Sorted(s)
  {
    xs := [];
    var todo := s;
    while todo != {}
      invariant todo <= s
      invariant Lists(xs, s - todo)
      decreases todo
    {
      var x :| x in todo;
      InsertLists(x, xs, s - todo);
      xs := Insert(x, xs);
      assert (s - todo) + {x} == s - (todo - {x});
      todo := todo - {x};
    }
    assert s - todo == s;
    ListingUnique(xs, Sorted(s), s);
  }

  /** The order is by the first differing character, and a text comes before its extensions. */
  lemma {:induction false} LessMeaning(common: string, a: string, b: string)
    ensures Less(common + a, common + b) == Less(a, b)
    ensures a == "" && b != "" ==> Less(a, b)
    ensures a != "" && b != "" && a[0] != b[0] ==> (Less(a, b) <==> a[0] < b[0])
  {
    if common == "" {
      assert common + a == a && common + b == b;
    } else {
      assert (common + a)[1..] == common[1..] + a && (common + b)[1..] == common[1..] + b;
      LessMeaning(common[1..], a, b);
    }
  }
}
