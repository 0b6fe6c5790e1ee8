/** Small facts about sequences, sets and sorting used across the components. */
module Sequences {

  function Elems<T>(s: seq<T>): set<T> {
    set x | x in s
  }

  /** One more element enlarges the set exactly when it is new. */
  lemma AddElem<T>(a: set<T>, x: T)
    ensures |a + {x}| == |a| + (if x in a then 0 else 1)
  {
    if x in a {
      assert a + {x} == a;
    }
  }

  lemma ElemsFirst<T>(s: seq<T>)
    requires s != []
    ensures Elems(s) == Elems(s[1..]) + {s[0]}
    ensures |Elems(s)| == |Elems(s[1..])| + (if s[0] in s[1..] then 0 else 1)
  {
    assert s == [s[0]] + s[1..];
    assert Elems(s) == Elems(s[1..]) + {s[0]};
    AddElem(Elems(s[1..]), s[0]);
  }

  lemma ElemsLast<T>(s: seq<T>)
    requires s != []
    ensures var n := |s| - 1;
            && Elems(s) == Elems(s[..n]) + {s[n]}
            && |Elems(s)| == |Elems(s[..n])| + (if s[n] in s[..n] then 0 else 1)
  {
    var n := |s| - 1;
    assert s == s[..n] + [s[n]];
    assert Elems(s) == Elems(s[..n]) + {s[n]};
    AddElem(Elems(s[..n]), s[n]);
  }

  predicate NoneTwice<T(==)>(s: seq<T>) { |Elems(s)| == |s| }

  lemma {:induction false} ElemsSize<T>(s: seq<T>)
    ensures |Elems(s)| <= |s|
  {
    if s != [] {
      ElemsLast(s);
      ElemsSize(s[..|s| - 1]);
    }
  }

  /** The last element is new, and so on down. */
  lemma NoneTwicePrefix<T>(s: seq<T>)
    requires NoneTwice(s) && s != []
    ensures NoneTwice(s[..|s| - 1]) && s[|s| - 1] !in s[..|s| - 1]
  {
    ElemsLast(s);
    ElemsSize(s[..|s| - 1]);
  }

  lemma {:induction false} SubsetSize<T>(a: set<T>, b: set<T>)
    requires a <= b
    ensures |a| <= |b|
    ensures |a| == |b| ==> a == b
  {
    if a != {} {
      var x :| x in a;
      SubsetSize(a - {x}, b - {x});
    }
  }

  /** The sum of `f` over a set. */
  ghost function SumOver<T(!new)>(s: set<T>, f: T -> nat): nat {
    if s == {} then 0
    else
      var x :| x in s;
      f(x) + SumOver(s - {x}, f)
  }

  /** The order in which the elements are taken does not matter. */
  lemma {:induction false} SumWithout<T(!new)>(s: set<T>, f: T -> nat, x: T)
    requires x in s
    ensures SumOver(s, f) == f(x) + SumOver(s - {x}, f)
  {
    var y :| y in s && SumOver(s, f) == f(y) + SumOver(s - {y}, f);
    if y != x {
      SumWithout(s - {y}, f, x);
      SumWithout(s - {x}, f, y);
      assert (s - {y}) - {x} == (s - {x}) - {y};
    }
  }

  lemma SumWith<T(!new)>(s: set<T>, f: T -> nat, x: T)
    requires x !in s
    ensures SumOver(s + {x}, f) == SumOver(s, f) + f(x)
  {
    SumWithout(s + {x}, f, x);
    assert (s + {x}) - {x} == s;
  }

  /** The integers of a half-open interval. */
  function Range(lo: int, hi: int): (r: set<int>)
    ensures forall k :: k in r <==> lo <= k < hi
    ensures |r| == if lo <= hi then hi - lo else 0
    decreases hi - lo
  {
    if lo >= hi then {} else Range(lo, hi - 1) + {hi - 1}
  }

  function Flatten<T>(parts: seq<seq<T>>): seq<T> {
    if |parts| == 0 then [] else Flatten(parts[..|parts| - 1]) + parts[|parts| - 1]
  }

  lemma FlattenLast<T>(parts: seq<seq<T>>, part: seq<T>)
    ensures Flatten(parts + [part]) == Flatten(parts) + part
  {
    assert (parts + [part])[..|parts|] == parts;
  }

  lemma {:induction false} FlattenAppend<T>(a: seq<seq<T>>, b: seq<seq<T>>)
    ensures Flatten(a + b) == Flatten(a) + Flatten(b)
  {
    if |b| == 0 {
      assert a + b == a;
    } else {
      var n := |b| - 1;
      FlattenAppend(a, b[..n]);
      assert (a + b)[..|a| + n] == a + b[..n];
    }
  }

  function Least(s: seq<int>): int
    requires |s| > 0
  {
    if |s| == 1 then s[0]
    else
      var m := Least(s[..|s| - 1]);
      if m <= s[|s| - 1] then m else s[|s| - 1]
  }

  lemma {:induction false} LeastMeaning(s: seq<int>)
    requires |s| > 0
    ensures Least(s) in s && forall i :: 0 <= i < |s| ==> Least(s) <= s[i]
  {
    if |s| > 1 {
      LeastMeaning(s[..|s| - 1]);
    }
  }

  predicate Sorted(s: seq<int>) {
    forall i, j :: 0 <= i < j < |s| ==> s[i] <= s[j]
  }

  function Insert(x: int, s: seq<int>): seq<int> {
    if s == [] || x <= s[0] then [x] + s else [s[0]] + Insert(x, s[1..])
  }

  /** Library sort, up to the order of equal elements. */
  function Sort(s: seq<int>): seq<int> {
    if s == [] then [] else Insert(s[0], Sort(s[1..]))
  }

  lemma {:induction false} InsertKeeps(x: int, s: seq<int>)
    ensures multiset(Insert(x, s)) == multiset(s) + multiset{x}
  {
    if s != [] && x > s[0] {
      InsertKeeps(x, s[1..]);
      assert s == [s[0]] + s[1..];
    }
  }

  lemma ConsSorted(x: int, s: seq<int>)
    requires Sorted(s) && (s != [] ==> x <= s[0])
    ensures Sorted([x] + s)
  {
    var all := [x] + s;
    forall i, j | 0 <= i < j < |all| ensures all[i] <= all[j] {
      assert all[j] == s[j - 1];
      if i > 0 {
        assert all[i] == s[i - 1];
      } else if j > 1 {
        assert s[0] <= s[j - 1];
      }
    }
  }

  lemma {:induction false} InsertSorted(x: int, s: seq<int>)
    requires Sorted(s)
    ensures Sorted(Insert(x, s))
    ensures Insert(x, s)[0] == if s == [] || x <= s[0] then x else s[0]
  {
    if s == [] || x <= s[0] {
      ConsSorted(x, s);
    } else {
      InsertSorted(x, s[1..]);
      ConsSorted(s[0], Insert(x, s[1..]));
    }
  }

  lemma {:induction false} SortSorts(s: seq<int>)
    ensures Sorted(Sort(s))
    ensures multiset(Sort(s)) == multiset(s)
  {
    if s != [] {
      SortSorts(s[1..]);
      InsertSorted(s[0], Sort(s[1..]));
      InsertKeeps(s[0], Sort(s[1..]));
      assert s == [s[0]] + s[1..];
    }
  }

  /** A rearrangement has the same elements and the same length. */
  lemma SameElems<T>(a: seq<T>, b: seq<T>)
    requires multiset(a) == multiset(b)
    ensures Elems(a) == Elems(b) && |a| == |b|
  {
    assert |a| == |multiset(a)| && |b| == |multiset(b)|;
    forall x ensures x in a <==> x in b {
      assert x in a <==> x in multiset(a);
      assert x in b <==> x in multiset(b);
    }
  }

  predicate Ascending(s: seq<int>) {
    forall i, j :: 0 <= i < j < |s| ==> s[i] < s[j]
  }

  /** An ordered set as the sequence of its elements. */
  function InsertNew(x: int, s: seq<int>): seq<int> {
    if |s| == 0 || x < s[0] then [x] + s
    else if x == s[0] then s
    else [s[0]] + InsertNew(x, s[1..])
  }

  lemma {:induction false} InsertNewAscends(x: int, s: seq<int>)
    requires Ascending(s)
    ensures var r := InsertNew(x, s);
            && Ascending(r) && x in r
            && (forall y :: y in r ==> y == x || y in s) && (forall y :: y in s ==> y in r)
            && r != [] && r[0] == (if s == [] || x < s[0] then x else s[0])
  {
    if s != [] && x > s[0] {
      InsertNewAscends(x, s[1..]);
    }
  }
}
