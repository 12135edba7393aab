/** Sort keys and the `sorted(...)[:limit]` pattern every ranking in the service uses. */
module Ordering {

  datatype Option<+T> = None | Some(value: T)
  {
    predicate IsFailure() { None? }
    function PropagateFailure<U>(): Option<U> requires None? { None }
    function Extract(): T requires Some? { value }
  }

  /** `(-primary, -popularity, str(id))`: the id stands for its string, so `<` on it is the string order. */
  datatype Key = Key(primary: real, popularity: int, id: int)

  /** The strict order of the keys: larger primary first, then the more popular, then the smaller id. */
  predicate Before(a: Key, b: Key) {
    || a.primary > b.primary
    || (a.primary == b.primary && a.popularity > b.popularity)
    || (a.primary == b.primary && a.popularity == b.popularity && a.id < b.id)
  }

  function Take<T(!new)>(xs: seq<T>, limit: nat): (r: seq<T>)
    ensures r <= xs && |r| == if |xs| <= limit then |xs| else limit
  {
    if |xs| <= limit then xs else xs[..limit]
  }

  function Filter<T(!new)>(xs: seq<T>, p: T -> bool): (r: seq<T>)
    ensures |r| <= |xs|
    ensures forall x :: x in r <==> x in xs && p(x)
  {
    if xs == [] then [] else
    var rest := Filter(xs[1..], p);
    if p(xs[0]) then [xs[0]] + rest else rest
  }

  function Map<S(!new), T(!new)>(xs: seq<S>, f: S -> T): (r: seq<T>)
    ensures |r| == |xs| && forall i :: 0 <= i < |xs| ==> r[i] == f(xs[i])
  {
    seq(|xs|, i requires 0 <= i < |xs| => f(xs[i]))
  }

  ghost predicate Distinct<T(!new)>(xs: seq<T>) {
    forall i, j :: 0 <= i < j < |xs| ==> xs[i] != xs[j]
  }

  // ---------------------------------------------------------------- sorting

  ghost predicate Sorted<T(!new)>(xs: seq<T>, key: T -> Key) {
    forall i, j :: 0 <= i < j < |xs| ==> !Before(key(xs[j]), key(xs[i]))
  }

  /** No two different elements share a key: the last component is an identity. */
  ghost predicate Injective<T(!new)>(xs: seq<T>, key: T -> Key) {
    forall x, y :: x in xs && y in xs && key(x) == key(y) ==> x == y
  }

  lemma SortedCons<T(!new)>(x: T, xs: seq<T>, key: T -> Key)
    ensures Sorted([x] + xs, key) <==> Sorted(xs, key) && forall y :: y in xs ==> !Before(key(y), key(x))
  {
    var whole := [x] + xs;
    assert forall i :: 0 <= i < |xs| ==> whole[i + 1] == xs[i];
    if Sorted(xs, key) && forall y :: y in xs ==> !Before(key(y), key(x)) {
      forall i, j | 0 <= i < j < |whole| ensures !Before(key(whole[j]), key(whole[i])) {
        assert whole[j] == xs[j - 1];
        if i > 0 { assert whole[i] == xs[i - 1]; }
      }
    }
    if Sorted(whole, key) {
      forall i, j | 0 <= i < j < |xs| ensures !Before(key(xs[j]), key(xs[i])) {
        assert whole[i + 1] == xs[i] && whole[j + 1] == xs[j];
      }
      forall y | y in xs ensures !Before(key(y), key(x)) {
        var j :| 0 <= j < |xs| && xs[j] == y;
        assert whole[j + 1] == y && whole[0] == x;
      }
    }
  }

  function Insert<T(!new)>(x: T, xs: seq<T>, key: T -> Key): (r: seq<T>)
    ensures multiset(r) == multiset(xs) + multiset{x}
    ensures |r| == |xs| + 1
    ensures forall y :: y in r <==> y == x || y in xs
    ensures Sorted(xs, key) ==> Sorted(r, key)
  {
    if xs == [] then [x]
    else if !Before(key(xs[0]), key(x)) then
      SortedCons(x, xs, key);
      [x] + xs
    else
      var rest := Insert(x, xs[1..], key);
      assert xs == [xs[0]] + xs[1..];
      SortedCons(xs[0], xs[1..], key);
      SortedCons(xs[0], rest, key);
      [xs[0]] + rest
  }

  /** Python's stable `list.sort(key=...)`. */
  function Sort<T(!new)>(xs: seq<T>, key: T -> Key): (r: seq<T>)
    ensures multiset(r) == multiset(xs)
    ensures |r| == |xs|
    ensures forall x :: x in r <==> x in xs
    ensures Sorted(r, key)
  {
    if xs == [] then [] else
    assert xs == [xs[0]] + xs[1..];
    Insert(xs[0], Sort(xs[1..], key), key)
  }

  /** `sorted(xs, key=...)[:limit]` */
  function Top<T(!new)>(xs: seq<T>, key: T -> Key, limit: nat): (r: seq<T>)
    ensures |r| == if |xs| <= limit then |xs| else limit
    ensures forall x :: x in r ==> x in xs
    ensures Sorted(r, key)
  {
    Take(Sort(xs, key), limit)
  }

  lemma TopMembers<T(!new)>(xs: seq<T>, key: T -> Key, limit: nat)
    ensures forall i :: 0 <= i < |Top(xs, key, limit)| ==> Top(xs, key, limit)[i] in xs
  {
    var r := Top(xs, key, limit);
    assert forall i :: 0 <= i < |r| ==> r[i] in r;
  }

  // ------------------------------------------------------- uniqueness of the order

  /** Two orderings of the same elements under an injective key are the same list. */
  lemma {:induction false} SortedUnique<T(!new)>(xs: seq<T>, ys: seq<T>, key: T -> Key)
    requires Sorted(xs, key) && Sorted(ys, key) && Injective(xs, key)
    requires multiset(xs) == multiset(ys)
    ensures xs == ys
  {
    SameSize(xs, ys);
    if xs != [] {
      var x, y := xs[0], ys[0];
      assert xs == [x] + xs[1..] && ys == [y] + ys[1..];
      SameHead(xs, ys, key);
      SameTails(xs, ys);
      SortedCons(x, xs[1..], key);
      SortedCons(y, ys[1..], key);
      assert forall z :: z in xs[1..] ==> z in xs;
      SortedUnique(xs[1..], ys[1..], key);
    }
  }

  lemma SameTails<T(!new)>(xs: seq<T>, ys: seq<T>)
    requires xs != [] && ys != [] && xs[0] == ys[0] && multiset(xs) == multiset(ys)
    ensures multiset(xs[1..]) == multiset(ys[1..])
  {
    assert xs == [xs[0]] + xs[1..] && ys == [ys[0]] + ys[1..];
    assert multiset(xs[1..]) == multiset(xs) - multiset{xs[0]};
    assert multiset(ys[1..]) == multiset(ys) - multiset{xs[0]};
  }

  lemma SameHead<T(!new)>(xs: seq<T>, ys: seq<T>, key: T -> Key)
    requires Sorted(xs, key) && Sorted(ys, key) && Injective(xs, key)
    requires xs != [] && ys != [] && forall x :: x in xs <==> x in ys
    ensures xs[0] == ys[0]
  {
    assert xs[0] in ys && ys[0] in xs;
    assert key(xs[0]) == key(ys[0]);
  }

  lemma SameSize<T(!new)>(xs: seq<T>, ys: seq<T>)
    requires multiset(xs) == multiset(ys)
    ensures |xs| == |ys|
    ensures forall x :: x in xs <==> x in ys
  {
    assert |multiset(xs)| == |xs| && |multiset(ys)| == |ys|;
    forall x ensures x in xs <==> x in ys {
      assert x in xs <==> x in multiset(xs);
      assert x in ys <==> x in multiset(ys);
    }
  }

  /** Sorting does not depend on the order the elements arrived in. */
  lemma SortPermuted<T(!new)>(xs: seq<T>, ys: seq<T>, key: T -> Key)
    requires multiset(xs) == multiset(ys) && Injective(xs, key)
    ensures Sort(xs, key) == Sort(ys, key)
  {
    SameSize(xs, ys);
    SortedUnique(Sort(xs, key), Sort(ys, key), key);
  }

  lemma FilterAppend<T(!new)>(xs: seq<T>, ys: seq<T>, p: T -> bool)
    ensures Filter(xs + ys, p) == Filter(xs, p) + Filter(ys, p)
  {
    if xs == [] {
      assert xs + ys == ys;
    } else {
      assert (xs + ys)[1..] == xs[1..] + ys;
      FilterAppend(xs[1..], ys, p);
    }
  }

  lemma {:induction false} FilterMultiset<T(!new)>(xs: seq<T>, p: T -> bool, x: T)
    ensures multiset(Filter(xs, p))[x] == if p(x) then multiset(xs)[x] else 0
  {
    if xs != [] {
      FilterMultiset(xs[1..], p, x);
      assert xs == [xs[0]] + xs[1..];
    }
  }

  lemma {:induction false} FilterSorted<T(!new)>(xs: seq<T>, p: T -> bool, key: T -> Key)
    requires Sorted(xs, key)
    ensures Sorted(Filter(xs, p), key)
  {
    if xs != [] {
      FilterSorted(xs[1..], p, key);
      forall y | y in xs[1..] ensures !Before(key(y), key(xs[0])) {
        var j :| 0 <= j < |xs[1..]| && xs[1..][j] == y;
        assert xs[j + 1] == y;
      }
    }
  }

  lemma {:induction false} FilterDistinct<T(!new)>(xs: seq<T>, p: T -> bool)
    requires Distinct(xs)
    ensures Distinct(Filter(xs, p))
  {
    if xs != [] { FilterDistinct(xs[1..], p); }
  }

  /** Removing candidates and sorting commute, so dropping some never reorders the others. */
  lemma SortFilter<T(!new)>(xs: seq<T>, p: T -> bool, key: T -> Key)
    requires Injective(xs, key)
    ensures Sort(Filter(xs, p), key) == Filter(Sort(xs, key), p)
  {
    FilterSorted(Sort(xs, key), p, key);
    forall x ensures multiset(Filter(Sort(xs, key), p))[x] == multiset(Filter(xs, p))[x] {
      FilterMultiset(xs, p, x);
      FilterMultiset(Sort(xs, key), p, x);
    }
    assert multiset(Filter(Sort(xs, key), p)) == multiset(Filter(xs, p));
    SortedUnique(Sort(Filter(xs, p), key), Filter(Sort(xs, key), p), key);
  }

  /** The sorted survivors are those of the first `n` elements and then those of the rest. */
  lemma SortFilterSplit<T(!new)>(xs: seq<T>, p: T -> bool, key: T -> Key, n: nat)
    requires Injective(xs, key)
    ensures var s := Sort(xs, key);
      Sort(Filter(xs, p), key) == Filter(Take(s, n), p) + Filter(s[|Take(s, n)|..], p)
  {
    var s := Sort(xs, key);
    assert s == Take(s, n) + s[|Take(s, n)|..];
    SortFilter(xs, p, key);
    FilterAppend(Take(s, n), s[|Take(s, n)|..], p);
  }

  // ------------------------------------------------------- renaming the elements

  lemma MapAppend<S(!new), T(!new)>(xs: seq<S>, ys: seq<S>, f: S -> T)
    ensures Map(xs + ys, f) == Map(xs, f) + Map(ys, f)
  {}

  lemma MapCons<S(!new), T(!new)>(x: S, xs: seq<S>, f: S -> T)
    ensures Map([x] + xs, f) == [f(x)] + Map(xs, f)
  {}

  lemma {:induction false} FilterMapped<S(!new), T(!new)>(xs: seq<S>, f: S -> T, p: S -> bool, q: T -> bool)
    requires forall x :: x in xs ==> q(f(x)) == p(x)
    ensures Filter(Map(xs, f), q) == Map(Filter(xs, p), f)
  {
    if xs != [] {
      assert xs == [xs[0]] + xs[1..];
      MapCons(xs[0], xs[1..], f);
      assert Map(xs, f)[1..] == Map(xs[1..], f);
      FilterMapped(xs[1..], f, p, q);
      MapCons(xs[0], Filter(xs[1..], p), f);
    }
  }

  lemma {:induction false} InsertMapped<S(!new), T(!new)>(x: S, xs: seq<S>, f: S -> T, key: S -> Key, other: T -> Key)
    requires other(f(x)) == key(x) && forall y :: y in xs ==> other(f(y)) == key(y)
    ensures Insert(f(x), Map(xs, f), other) == Map(Insert(x, xs, key), f)
  {
    if xs == [] {
      assert Map([x], f) == [f(x)];
    } else {
      assert xs[0] in xs;
      MapCons(x, xs, f);
      assert Map(xs, f)[1..] == Map(xs[1..], f);
      InsertMapped(x, xs[1..], f, key, other);
      MapCons(xs[0], Insert(x, xs[1..], key), f);
    }
  }

  lemma {:induction false} SortMapped<S(!new), T(!new)>(xs: seq<S>, f: S -> T, key: S -> Key, other: T -> Key)
    requires forall x :: x in xs ==> other(f(x)) == key(x)
    ensures Sort(Map(xs, f), other) == Map(Sort(xs, key), f)
  {
    if xs != [] {
      assert xs[0] in xs;
      assert Map(xs, f)[1..] == Map(xs[1..], f);
      SortMapped(xs[1..], f, key, other);
      InsertMapped(xs[0], Sort(xs[1..], key), f, key, other);
    }
  }

  /** Renaming elements without touching their keys renames the sorted, cut list. */
  lemma TopMapped<S(!new), T(!new)>(xs: seq<S>, f: S -> T, key: S -> Key, other: T -> Key, limit: nat)
    requires forall x :: x in xs ==> other(f(x)) == key(x)
    ensures Top(Map(xs, f), other, limit) == Map(Top(xs, key, limit), f)
  {
    SortMapped(xs, f, key, other);
    assert Take(Map(Sort(xs, key), f), limit) == Map(Take(Sort(xs, key), limit), f);
  }

  // ------------------------------------------------------- what `[:limit]` keeps

  lemma DistinctMultiset<T(!new)>(xs: seq<T>, ys: seq<T>)
    requires Distinct(xs) && multiset(xs) == multiset(ys)
    ensures Distinct(ys)
  {
    forall i, j | 0 <= i < j < |ys| ensures ys[i] != ys[j] {
      if ys[i] == ys[j] {
        assert ys == ys[..i] + [ys[i]] + ys[i + 1..j] + [ys[j]] + ys[j + 1..];
        assert multiset(ys)[ys[i]] >= 2;
        DistinctCount(xs, ys[i]);
      }
    }
  }

  lemma {:induction false} DistinctCount<T(!new)>(xs: seq<T>, x: T)
    requires Distinct(xs)
    ensures multiset(xs)[x] == if x in xs then 1 else 0
  {
    if xs != [] {
      assert xs == [xs[0]] + xs[1..];
      DistinctCount(xs[1..], x);
    }
  }

  /** The elements of `xs` that sort ahead of `x`. */
  ghost function Ahead<T(!new)>(xs: seq<T>, key: T -> Key, x: T): set<T> {
    set y | y in xs && Before(key(y), key(x))
  }

  lemma {:induction false} PrefixSize<T(!new)>(xs: seq<T>)
    requires Distinct(xs)
    ensures |set x | x in xs| == |xs|
  {
    if xs != [] {
      var front := xs[..|xs| - 1];
      PrefixSize(front);
      assert xs == front + [xs[|xs| - 1]];
      assert (set x | x in xs) == (set x | x in front) + {xs[|xs| - 1]};
    }
  }

  lemma AheadOfIndex<T(!new)>(xs: seq<T>, key: T -> Key, i: nat)
    requires Distinct(xs) && Injective(xs, key) && i < |xs|
    ensures var s := Sort(xs, key); |Ahead(xs, key, s[i])| == i
  {
    var s := Sort(xs, key);
    DistinctMultiset(xs, s);
    PrefixSize(s[..i]);
    AheadIsPrefix(xs, s, key, i);
  }

  lemma AheadIsPrefix<T(!new)>(xs: seq<T>, s: seq<T>, key: T -> Key, i: nat)
    requires Distinct(s) && Sorted(s, key) && Injective(s, key) && i < |s|
    requires forall x :: x in s <==> x in xs
    ensures Ahead(xs, key, s[i]) == set x | x in s[..i]
  {
    forall y ensures y in Ahead(xs, key, s[i]) <==> y in s[..i] {
      if y in s {
        var j :| 0 <= j < |s| && s[j] == y;
        AheadMeansEarlier(s, key, j, i);
        if j < i { assert s[..i][j] == y; }
      }
    }
  }

  lemma AheadMeansEarlier<T(!new)>(s: seq<T>, key: T -> Key, j: nat, i: nat)
    requires Distinct(s) && Sorted(s, key) && Injective(s, key) && i < |s| && j < |s|
    ensures Before(key(s[j]), key(s[i])) <==> j < i
  {
    if j < i { assert s[j] != s[i]; }
  }

  /** Exactly the elements with fewer than `limit` others ahead of them are kept. */
  lemma TopExactly<T(!new)>(xs: seq<T>, key: T -> Key, limit: nat, x: T)
    requires Distinct(xs) && Injective(xs, key)
    ensures x in Top(xs, key, limit) <==> x in xs && |Ahead(xs, key, x)| < limit
  {
    var s := Sort(xs, key);
    DistinctMultiset(xs, s);
    if x in s {
      var i :| 0 <= i < |s| && s[i] == x;
      AheadOfIndex(xs, key, i);
      if i < limit { assert Take(s, limit)[i] == x; }
    }
  }

  // ------------------------------------------------------- enumerating a set of ids

  lemma Member<T>(s: set<T>) returns (x: T)
    requires s != {}
    ensures x in s
  {
    x :| x in s;
  }

  lemma Extra<T>(s: set<T>, t: set<T>) returns (x: T)
    requires t <= s && s != t
    ensures x in s && x !in t
  {
    assert !(s <= t);
    x :| x in s && x !in t;
  }

  ghost predicate IsLeast(s: set<int>, m: int) {
    m in s && forall x :: x in s ==> m <= x
  }

  lemma {:induction false} LeastExists(s: set<int>) returns (m: int)
    requires s != {}
    ensures IsLeast(s, m)
  {
    var x := Member(s);
    if y :| y in s && y != x {
      assert y in s - {x};
      var rest := LeastExists(s - {x});
      assert forall z :: z in s ==> z == x || z in s - {x};
      m := if x <= rest then x else rest;
    } else {
      m := x;
    }
  }

  function Least(s: set<int>): (m: int)
    requires s != {}
    ensures m in s && forall x :: x in s ==> m <= x
  {
    assert exists m :: IsLeast(s, m) by { var m := LeastExists(s); }
    var m :| m in s && forall x :: x in s ==> m <= x;
    m
  }

  lemma LeastWithout(s: set<int>, x: int)
    requires x in s && x != Least(s)
    ensures Least(s) in s - {x} && Least(s - {x}) == Least(s)
  {
    assert Least(s) in s - {x};
  }

  /** `sorted(s, key=str)` */
  function Listing(s: set<int>): (r: seq<int>)
    ensures forall x :: x in r <==> x in s
    ensures Ascending(r)
    ensures |r| == |s|
  {
    if s == {} then [] else
    var m := Least(s);
    var rest := Listing(s - {m});
    assert forall j :: 0 <= j < |rest| ==> rest[j] in s - {m};
    assert [m] + rest == Prepend(m, rest);
    [m] + rest
  }

  ghost predicate Ascending(xs: seq<int>) {
    forall i, j :: 0 <= i < j < |xs| ==> xs[i] < xs[j]
  }

  ghost function Prepend(m: int, xs: seq<int>): (r: seq<int>)
    requires Ascending(xs) && forall j :: 0 <= j < |xs| ==> m < xs[j]
    ensures Ascending(r)
    ensures forall x :: x in r <==> x == m || x in xs
  {
    [m] + xs
  }
}
