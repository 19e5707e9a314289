/** Sequence vocabulary shared by the stores: the stable sorts they use
    (`[...items].sort((a, b) => key(b) - key(a))` and its ascending twin),
    `filter`, and sums over the items that satisfy a condition (`filter`
    followed by `reduce`). A stable sort by a key is unique, so one stable
    algorithm, insertion sort, stands for the engine's. */
module Seqs {
  import opened Util


  ghost predicate SortedDesc<T>(s: seq<T>, key: T -> int)
  {
    forall i, j :: 0 <= i < j < |s| ==> key(s[i]) >= key(s[j])
  }

  ghost predicate SortedAsc<T>(s: seq<T>, key: T -> int)
  {
    forall i, j :: 0 <= i < j < |s| ==> key(s[i]) <= key(s[j])
  }

  lemma ConsSortedDesc<T>(h: T, s: seq<T>, key: T -> int)
    requires SortedDesc(s, key) && (|s| == 0 || key(h) >= key(s[0]))
    ensures SortedDesc([h] + s, key)
  {
    var r := [h] + s;
    assert forall j :: 0 < j < |r| ==> r[j] == s[j - 1];
    forall j | 0 < j < |r|
      ensures key(r[0]) >= key(r[j])
    {
      if j > 1 { assert key(s[0]) >= key(s[j - 1]); }
    }
  }

  lemma ConsSortedAsc<T>(h: T, s: seq<T>, key: T -> int)
    requires SortedAsc(s, key) && (|s| == 0 || key(h) <= key(s[0]))
    ensures SortedAsc([h] + s, key)
  {
    var r := [h] + s;
    assert forall j :: 0 < j < |r| ==> r[j] == s[j - 1];
    forall j | 0 < j < |r|
      ensures key(r[0]) <= key(r[j])
    {
      if j > 1 { assert key(s[0]) <= key(s[j - 1]); }
    }
  }

  /** Puts x before the first element whose key is not larger, so x precedes its equals. */
  function InsertDesc<T>(x: T, s: seq<T>, key: T -> int): (r: seq<T>)
    requires SortedDesc(s, key)
    ensures multiset(r) == multiset(s) + multiset{x} && SortedDesc(r, key)
    ensures |r| == |s| + 1 && (r[0] == x || (|s| > 0 && r[0] == s[0]))
  {
    if s == [] then [x]
    else if key(s[0]) <= key(x) then ConsSortedDesc(x, s, key); [x] + s
    else
      var rest := InsertDesc(x, s[1..], key);
      assert s == [s[0]] + s[1..];
      assert |s| > 1 ==> key(s[0]) >= key(s[1]);
      ConsSortedDesc(s[0], rest, key);
      assert multiset([s[0]] + rest) == multiset{s[0]} + multiset(rest);
      [s[0]] + rest
  }

  function SortDesc<T>(s: seq<T>, key: T -> int): (r: seq<T>)
    ensures multiset(r) == multiset(s) && SortedDesc(r, key)
  {
    if s == [] then []
    else
      assert s == [s[0]] + s[1..];
      InsertDesc(s[0], SortDesc(s[1..], key), key)
  }

  /** Puts x before the first element whose key is not smaller, so x precedes its equals. */
  function InsertAsc<T>(x: T, s: seq<T>, key: T -> int): (r: seq<T>)
    requires SortedAsc(s, key)
    ensures multiset(r) == multiset(s) + multiset{x} && SortedAsc(r, key)
    ensures |r| == |s| + 1 && (r[0] == x || (|s| > 0 && r[0] == s[0]))
  {
    if s == [] then [x]
    else if key(x) <= key(s[0]) then ConsSortedAsc(x, s, key); [x] + s
    else
      var rest := InsertAsc(x, s[1..], key);
      assert s == [s[0]] + s[1..];
      assert |s| > 1 ==> key(s[0]) <= key(s[1]);
      ConsSortedAsc(s[0], rest, key);
      assert multiset([s[0]] + rest) == multiset{s[0]} + multiset(rest);
      [s[0]] + rest
  }

  function SortAsc<T>(s: seq<T>, key: T -> int): (r: seq<T>)
    ensures multiset(r) == multiset(s) && SortedAsc(r, key)
  {
    if s == [] then []
    else
      assert s == [s[0]] + s[1..];
      InsertAsc(s[0], SortAsc(s[1..], key), key)
  }

  lemma SortDescLength<T>(s: seq<T>, key: T -> int)
    ensures |SortDesc(s, key)| == |s|
  {
    assert |multiset(SortDesc(s, key))| == |multiset(s)|;
  }

  lemma SortAscLength<T>(s: seq<T>, key: T -> int)
    ensures |SortAsc(s, key)| == |s|
  {
    assert |multiset(SortAsc(s, key))| == |multiset(s)|;
  }

  /** The index of the first element whose key is maximal. */
  function FirstMax<T>(s: seq<T>, key: T -> int): (k: nat)
    requires |s| > 0
    ensures k < |s|
    ensures forall i :: 0 <= i < |s| ==> key(s[i]) <= key(s[k])
    ensures forall i :: 0 <= i < k ==> key(s[i]) < key(s[k])
  {
    if |s| == 1 then 0
    else
      var k := FirstMax(s[1..], key);
      if key(s[0]) >= key(s[1..][k]) then 0 else k + 1
  }

  /** Stability at the head: a descending sort starts with the first element of largest key. */
  lemma {:induction false} SortDescHead<T>(s: seq<T>, key: T -> int)
    requires |s| > 0
    ensures SortDesc(s, key)[0] == s[FirstMax(s, key)]
  {
    SortDescLength(s, key);
    if |s| > 1 {
      SortDescHead(s[1..], key);
      SortDescLength(s[1..], key);
    }
  }

  /** Sorting what is already sorted changes nothing (the sort is stable). */
  lemma {:induction false} SortDescOfSorted<T>(s: seq<T>, key: T -> int)
    requires SortedDesc(s, key)
    ensures SortDesc(s, key) == s
  {
    if s != [] {
      var t := s[1..];
      SortedDescTail(s, key);
      SortDescOfSorted(t, key);
      InsertDescFront(s[0], t, key);
      assert s == [s[0]] + t;
    }
  }

  /** Whether an element has key k. */
  function KeyIs<T>(key: T -> int, k: int): T -> bool
  {
    (x: T) => key(x) == k
  }

  /** Inserting x puts it in front of every element of equal key. */
  lemma {:induction false} InsertDescKeyed<T>(x: T, t: seq<T>, key: T -> int, k: int)
    requires SortedDesc(t, key)
    ensures Filter(InsertDesc(x, t, key), KeyIs(key, k)) == (if key(x) == k then [x] else []) + Filter(t, KeyIs(key, k))
  {
    if t == [] {
      FilterCons(x, [], KeyIs(key, k));
    } else if key(t[0]) <= key(x) {
      InsertDescFront(x, t, key);
      FilterCons(x, t, KeyIs(key, k));
    } else {
      SortedDescTail(t, key);
      InsertDescKeyed(x, t[1..], key, k);
      var rest := InsertDescPast(x, t, key);
      FilterCons(t[0], rest, KeyIs(key, k));
      FilterCons(t[0], t[1..], KeyIs(key, k));
      SwapFronts(Filter(InsertDesc(x, t, key), KeyIs(key, k)), Filter(t, KeyIs(key, k)), Filter(rest, KeyIs(key, k)),
                 Filter(t[1..], KeyIs(key, k)), if key(x) == k then [x] else [], if key(t[0]) == k then [t[0]] else []);
    }
  }

  /** Past an element of larger key, insertion goes on in the tail. */
  lemma InsertDescPast<T>(x: T, t: seq<T>, key: T -> int) returns (rest: seq<T>)
    requires SortedDesc(t, key) && t != [] && key(t[0]) > key(x)
    ensures SortedDesc(t[1..], key) && t == [t[0]] + t[1..]
    ensures rest == InsertDesc(x, t[1..], key) && InsertDesc(x, t, key) == [t[0]] + rest
  {
    SortedDescTail(t, key);
    rest := InsertDesc(x, t[1..], key);
  }

  /** Two fronts of which at most one is non-empty can trade places. */
  lemma SwapFronts<T>(a: seq<T>, b: seq<T>, r: seq<T>, c: seq<T>, xs: seq<T>, ys: seq<T>)
    requires a == ys + r && r == xs + c && b == ys + c && (xs == [] || ys == [])
    ensures a == xs + b
  {
    if xs == [] {
      assert a == ys + c;
    } else {
      assert ys + (xs + c) == xs + c;
    }
  }

  lemma FilterCons<T>(y: T, u: seq<T>, p: T -> bool)
    ensures Filter([y] + u, p) == (if p(y) then [y] else []) + Filter(u, p)
  {
    assert ([y] + u)[0] == y && ([y] + u)[1..] == u;
  }

  /** The descending sort is stable: the elements of any one key come out in
      the order they went in. */
  lemma {:induction false} SortDescStable<T>(s: seq<T>, key: T -> int, k: int)
    ensures Filter(SortDesc(s, key), KeyIs(key, k)) == Filter(s, KeyIs(key, k))
  {
    if s != [] {
      SortDescStable(s[1..], key, k);
      InsertDescKeyed(s[0], SortDesc(s[1..], key), key, k);
    }
  }

  lemma {:induction false} InsertAscKeyed<T>(x: T, t: seq<T>, key: T -> int, k: int)
    requires SortedAsc(t, key)
    ensures Filter(InsertAsc(x, t, key), KeyIs(key, k)) == (if key(x) == k then [x] else []) + Filter(t, KeyIs(key, k))
  {
    if t == [] {
      FilterCons(x, [], KeyIs(key, k));
    } else if key(x) <= key(t[0]) {
      InsertAscFront(x, t, key);
      FilterCons(x, t, KeyIs(key, k));
    } else {
      var rest := InsertAscPast(x, t, key);
      InsertAscKeyed(x, t[1..], key, k);
      FilterCons(t[0], rest, KeyIs(key, k));
      FilterCons(t[0], t[1..], KeyIs(key, k));
      SwapFronts(Filter(InsertAsc(x, t, key), KeyIs(key, k)), Filter(t, KeyIs(key, k)), Filter(rest, KeyIs(key, k)),
                 Filter(t[1..], KeyIs(key, k)), if key(x) == k then [x] else [], if key(t[0]) == k then [t[0]] else []);
    }
  }

  lemma InsertAscFront<T>(x: T, t: seq<T>, key: T -> int)
    requires SortedAsc(t, key) && t != [] && key(x) <= key(t[0])
    ensures InsertAsc(x, t, key) == [x] + t
  {
  }

  lemma InsertAscPast<T>(x: T, t: seq<T>, key: T -> int) returns (rest: seq<T>)
    requires SortedAsc(t, key) && t != [] && key(t[0]) < key(x)
    ensures SortedAsc(t[1..], key) && t == [t[0]] + t[1..]
    ensures rest == InsertAsc(x, t[1..], key) && InsertAsc(x, t, key) == [t[0]] + rest
  {
    assert forall i :: 0 <= i < |t| - 1 ==> t[1..][i] == t[i + 1];
    rest := InsertAsc(x, t[1..], key);
  }

  /** The ascending sort is stable as well. */
  lemma {:induction false} SortAscStable<T>(s: seq<T>, key: T -> int, k: int)
    ensures Filter(SortAsc(s, key), KeyIs(key, k)) == Filter(s, KeyIs(key, k))
  {
    if s != [] {
      SortAscStable(s[1..], key, k);
      InsertAscKeyed(s[0], SortAsc(s[1..], key), key, k);
    }
  }

  lemma SortedDescTail<T>(s: seq<T>, key: T -> int)
    requires |s| > 0 && SortedDesc(s, key)
    ensures SortedDesc(s[1..], key) && (|s| > 1 ==> key(s[1]) <= key(s[0]))
  {
    assert forall i :: 0 <= i < |s| - 1 ==> s[1..][i] == s[i + 1];
  }

  /** An element at least as large as everything goes in front. */
  lemma InsertDescFront<T>(x: T, s: seq<T>, key: T -> int)
    requires SortedDesc(s, key) && (s == [] || key(s[0]) <= key(x))
    ensures InsertDesc(x, s, key) == [x] + s
  {
  }

  /** A prefix of a sorted sequence is sorted. */
  lemma TakeSortedDesc<T>(s: seq<T>, n: nat, key: T -> int)
    requires SortedDesc(s, key)
    ensures SortedDesc(Take(s, n), key)
  {
  }

  // ---------------------------------------------------------------------
  // filter and conditional sums

  /** `items.filter(p)`. */
  function Filter<T>(s: seq<T>, p: T -> bool): (r: seq<T>)
    ensures |r| <= |s|
    ensures forall i :: 0 <= i < |r| ==> p(r[i])
    ensures multiset(r) <= multiset(s)
  {
    if s == [] then []
    else
      assert s == [s[0]] + s[1..];
      if p(s[0]) then [s[0]] + Filter(s[1..], p) else Filter(s[1..], p)
  }

  lemma {:induction false} FilterAppend<T>(a: seq<T>, b: seq<T>, p: T -> bool)
    ensures Filter(a + b, p) == Filter(a, p) + Filter(b, p)
  {
    if a == [] {
      assert a + b == b;
    } else {
      assert (a + b)[1..] == a[1..] + b;
      FilterAppend(a[1..], b, p);
    }
  }

  /** Filtering one item more of a sequence. */
  lemma FilterSnoc<T>(s: seq<T>, i: nat, p: T -> bool)
    requires i < |s|
    ensures Filter(s[..i + 1], p) == Filter(s[..i], p) + (if p(s[i]) then [s[i]] else [])
  {
    assert s[..i + 1] == s[..i] + [s[i]];
    FilterAppend(s[..i], [s[i]], p);
  }

  /** Filtering keeps a descending order. */
  lemma {:induction false} FilterSorted<T>(s: seq<T>, p: T -> bool, key: T -> int)
    requires SortedDesc(s, key)
    ensures SortedDesc(Filter(s, p), key)
  {
    if s != [] {
      var t := s[1..];
      assert SortedDesc(t, key);
      FilterSorted(t, p, key);
      if p(s[0]) {
        var rest := Filter(t, p);
        assert forall i :: 0 <= i < |t| ==> key(t[i]) <= key(s[0]) by {
          forall i | 0 <= i < |t| ensures key(t[i]) <= key(s[0]) {
            assert t[i] == s[i + 1];
          }
        }
        FilterBounded(t, p, key, key(s[0]));
        ConsSortedDesc(s[0], rest, key);
      }
    }
  }

  lemma {:induction false} FilterBounded<T>(s: seq<T>, p: T -> bool, key: T -> int, b: int)
    requires forall i :: 0 <= i < |s| ==> key(s[i]) <= b
    ensures forall i :: 0 <= i < |Filter(s, p)| ==> key(Filter(s, p)[i]) <= b
  {
    if s != [] {
      FilterBounded(s[1..], p, key, b);
    }
  }

  /** The sum of f over the items satisfying p (`filter(p)` then `reduce` with `+`). */
  function SumWhere<T>(s: seq<T>, p: T -> bool, f: T -> int): int
  {
    if s == [] then 0 else (if p(s[0]) then f(s[0]) else 0) + SumWhere(s[1..], p, f)
  }

  lemma {:induction false} SumWhereAppend<T>(a: seq<T>, b: seq<T>, p: T -> bool, f: T -> int)
    ensures SumWhere(a + b, p, f) == SumWhere(a, p, f) + SumWhere(b, p, f)
  {
    if a == [] {
      assert a + b == b;
    } else {
      assert (a + b)[1..] == a[1..] + b;
      SumWhereAppend(a[1..], b, p, f);
    }
  }

  /** Summing over the filtered list is summing over the items that pass the filter. */
  lemma {:induction false} FilterSum<T>(s: seq<T>, p: T -> bool, f: T -> int)
    ensures SumWhere(Filter(s, p), p, f) == SumWhere(s, p, f)
  {
    if s != [] {
      FilterSum(s[1..], p, f);
    }
  }

  /** The filter keeps exactly the items that pass it. */
  lemma {:induction false} FilterMembers<T>(s: seq<T>, p: T -> bool)
    ensures forall x :: x in Filter(s, p) <==> x in s && p(x)
  {
    if s != [] {
      FilterMembers(s[1..], p);
      assert s == [s[0]] + s[1..];
    }
  }

  /** The positions whose item passes p. */
  ghost function Passing<T>(s: seq<T>, p: T -> bool): set<int>
  {
    set i | 0 <= i < |s| && p(s[i])
  }

  /** The filter keeps as many items as there are positions whose item passes. */
  lemma FilterCount<T>(s: seq<T>, p: T -> bool)
    ensures |Filter(s, p)| == |Passing(s, p)|
  {
    FilterCountPrefix(s, p, |s|);
    assert s[..|s|] == s;
  }

  lemma {:induction false} FilterCountPrefix<T>(s: seq<T>, p: T -> bool, n: nat)
    requires n <= |s|
    ensures |Filter(s[..n], p)| == |set i | 0 <= i < n && p(s[i])|
  {
    var passing := set i | 0 <= i < n && p(s[i]);
    if n == 0 {
      assert s[..0] == [];
      assert passing == {};
    } else {
      FilterCountPrefix(s, p, n - 1);
      FilterLengthSnoc(s, p, n);
      PassingSnoc(s, p, n);
    }
  }

  lemma FilterLengthSnoc<T>(s: seq<T>, p: T -> bool, n: nat)
    requires 0 < n <= |s|
    ensures |Filter(s[..n], p)| == |Filter(s[..n - 1], p)| + (if p(s[n - 1]) then 1 else 0)
  {
    FilterSnoc(s, n - 1, p);
  }

  /** One position more adds itself to the passing positions exactly when its item passes. */
  lemma PassingSnoc<T>(s: seq<T>, p: T -> bool, n: nat)
    requires 0 < n <= |s|
    ensures |set i | 0 <= i < n && p(s[i])| == |set i | 0 <= i < n - 1 && p(s[i])| + (if p(s[n - 1]) then 1 else 0)
  {
    var b := set i | 0 <= i < n && p(s[i]);
    var a := set i | 0 <= i < n - 1 && p(s[i]);
    var last: set<int> := if p(s[n - 1]) then {n - 1} else {};
    assert b == a + last;
    assert a !! last;
  }

  lemma {:induction false} FilterAllPass<T>(s: seq<T>, p: T -> bool)
    requires forall i :: 0 <= i < |s| ==> p(s[i])
    ensures Filter(s, p) == s
  {
    if s != [] {
      FilterAllPass(s[1..], p);
    }
  }

  lemma {:induction false} FilterNone<T>(s: seq<T>, p: T -> bool)
    requires forall i :: 0 <= i < |s| ==> !p(s[i])
    ensures Filter(s, p) == []
  {
    if s != [] {
      FilterNone(s[1..], p);
    }
  }

  /** Items that p rules out contribute nothing, whichever f is summed. */
  lemma {:induction false} SumWhereNone<T>(s: seq<T>, p: T -> bool, f: T -> int)
    requires forall i :: 0 <= i < |s| ==> !p(s[i])
    ensures SumWhere(s, p, f) == 0
  {
    if s != [] {
      SumWhereNone(s[1..], p, f);
    }
  }

  /** Summing one item more of a sequence. */
  lemma SumWhereSnoc<T>(s: seq<T>, i: nat, p: T -> bool, f: T -> int)
    requires i < |s|
    ensures SumWhere(s[..i + 1], p, f) == SumWhere(s[..i], p, f) + (if p(s[i]) then f(s[i]) else 0)
  {
    assert s[..i + 1] == s[..i] + [s[i]];
    SumWhereAppend(s[..i], [s[i]], p, f);
  }

  /** When p holds exactly where one of q and r does, and never both, p's sum
      is the two sums together. */
  lemma {:induction false} SumWhereSplit<T>(s: seq<T>, p: T -> bool, q: T -> bool, r: T -> bool, f: T -> int)
    requires forall i :: 0 <= i < |s| ==> (p(s[i]) <==> q(s[i]) || r(s[i])) && !(q(s[i]) && r(s[i]))
    ensures SumWhere(s, p, f) == SumWhere(s, q, f) + SumWhere(s, r, f)
  {
    if s != [] {
      SumWhereSplit(s[1..], p, q, r, f);
    }
  }

  /** The same split, counted: p keeps as many items as q and r together. */
  lemma {:induction false} FilterLengthSplit<T>(s: seq<T>, p: T -> bool, q: T -> bool, r: T -> bool)
    requires forall i :: 0 <= i < |s| ==> (p(s[i]) <==> q(s[i]) || r(s[i])) && !(q(s[i]) && r(s[i]))
    ensures |Filter(s, p)| == |Filter(s, q)| + |Filter(s, r)|
  {
    if s != [] {
      FilterLengthSplit(s[1..], p, q, r);
    }
  }

  /** Predicates that agree on every item give the same sum. */
  lemma {:induction false} SumWhereSamePred<T>(s: seq<T>, p: T -> bool, q: T -> bool, f: T -> int)
    requires forall i :: 0 <= i < |s| ==> (p(s[i]) <==> q(s[i]))
    ensures SumWhere(s, p, f) == SumWhere(s, q, f)
  {
    if s != [] {
      SumWhereSamePred(s[1..], p, q, f);
    }
  }

  lemma {:induction false} SumWhereNonNegative<T>(s: seq<T>, p: T -> bool, f: T -> int)
    requires forall i :: 0 <= i < |s| ==> f(s[i]) >= 0
    ensures SumWhere(s, p, f) >= 0
  {
    if s != [] {
      SumWhereNonNegative(s[1..], p, f);
    }
  }

  /** A prefix sums to at most the whole when no summand is negative. */
  lemma SumWhereTake<T>(s: seq<T>, n: nat, p: T -> bool, f: T -> int)
    requires forall i :: 0 <= i < |s| ==> f(s[i]) >= 0
    ensures SumWhere(Take(s, n), p, f) <= SumWhere(s, p, f)
  {
    var r := Take(s, n);
    assert s == r + s[|r|..];
    SumWhereAppend(r, s[|r|..], p, f);
    SumWhereNonNegative(s[|r|..], p, f);
  }

  lemma {:induction false} InsertDescSum<T>(x: T, s: seq<T>, key: T -> int, p: T -> bool, f: T -> int)
    requires SortedDesc(s, key)
    ensures SumWhere(InsertDesc(x, s, key), p, f) == SumWhere([x], p, f) + SumWhere(s, p, f)
  {
    var r := InsertDesc(x, s, key);
    if s == [] {
      assert r == [x];
    } else if key(s[0]) > key(x) {
      var rest := InsertDesc(x, s[1..], key);
      InsertDescSum(x, s[1..], key, p, f);
      assert r == [s[0]] + rest;
      assert r[1..] == rest;
    } else {
      assert r == [x] + s;
      assert r[1..] == s;
    }
  }

  /** Sorting does not change a conditional sum. */
  lemma {:induction false} SortDescSum<T>(s: seq<T>, key: T -> int, p: T -> bool, f: T -> int)
    ensures SumWhere(SortDesc(s, key), p, f) == SumWhere(s, p, f)
  {
    if s != [] {
      SortDescSum(s[1..], key, p, f);
      InsertDescSum(s[0], SortDesc(s[1..], key), key, p, f);
    }
  }

  lemma {:induction false} InsertAscSum<T>(x: T, s: seq<T>, key: T -> int, p: T -> bool, f: T -> int)
    requires SortedAsc(s, key)
    ensures SumWhere(InsertAsc(x, s, key), p, f) == SumWhere([x], p, f) + SumWhere(s, p, f)
  {
    var r := InsertAsc(x, s, key);
    if s == [] {
      assert r == [x];
    } else if key(x) > key(s[0]) {
      var rest := InsertAsc(x, s[1..], key);
      InsertAscSum(x, s[1..], key, p, f);
      assert r == [s[0]] + rest;
      assert r[1..] == rest;
    } else {
      assert r == [x] + s;
      assert r[1..] == s;
    }
  }

  lemma {:induction false} SortAscSum<T>(s: seq<T>, key: T -> int, p: T -> bool, f: T -> int)
    ensures SumWhere(SortAsc(s, key), p, f) == SumWhere(s, p, f)
  {
    if s != [] {
      SortAscSum(s[1..], key, p, f);
      InsertAscSum(s[0], SortAsc(s[1..], key), key, p, f);
    }
  }
}
