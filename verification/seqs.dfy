/** Sequence operations the screens apply to fetched lists: `filter`, `reduce`-sums
    and a stable descending sort, with the facts the rest of the model relies on. */
module Seqs {

  /** `xs.filter(p)`: the elements satisfying `p`, in their original order. */
  function Filter<T(==,!new)>(xs: seq<T>, p: T -> bool): (r: seq<T>)
    ensures |r| <= |xs|
    ensures forall i :: 0 <= i < |r| ==> p(r[i])
    ensures forall x :: x in r <==> x in xs && p(x)
  {
    if |xs| == 0 then []
    else
      assert xs == [xs[0]] + xs[1..];
      (if p(xs[0]) then [xs[0]] else []) + Filter(xs[1..], p)
  }

  /** Filtering keeps every copy of an element that satisfies `p` and none of the others. */
  lemma {:induction false} FilterCounts<T(!new)>(xs: seq<T>, p: T -> bool)
    ensures forall x :: multiset(Filter(xs, p))[x] == if p(x) then multiset(xs)[x] else 0
    decreases |xs|
  {
    if |xs| > 0 {
      FilterCounts(xs[1..], p);
      assert xs == [xs[0]] + xs[1..];
    }
  }

  /** `a` is obtained from `b` by deleting elements: an order-preserving subsequence. */
  predicate IsSubsequence<T(==)>(a: seq<T>, b: seq<T>)
    decreases |b|
  {
    |a| == 0 ||
    (|b| > 0 && ((a[0] == b[0] && IsSubsequence(a[1..], b[1..])) || IsSubsequence(a, b[1..])))
  }

  lemma {:induction false} FilterIsSubsequence<T(!new)>(xs: seq<T>, p: T -> bool)
    ensures IsSubsequence(Filter(xs, p), xs)
    decreases |xs|
  {
    if |xs| > 0 {
      FilterIsSubsequence(xs[1..], p);
      var r := Filter(xs, p);
      if p(xs[0]) {
        assert r[1..] == Filter(xs[1..], p);
      } else {
        assert r == Filter(xs[1..], p);
      }
    }
  }

  lemma {:induction false} FilterAppend<T(!new)>(xs: seq<T>, ys: seq<T>, p: T -> bool)
    ensures Filter(xs + ys, p) == Filter(xs, p) + Filter(ys, p)
    decreases |xs|
  {
    if |xs| == 0 {
      assert xs + ys == ys;
    } else {
      assert (xs + ys)[1..] == xs[1..] + ys;
      FilterAppend(xs[1..], ys, p);
    }
  }

  /** Filtering keeps everything exactly when every element already satisfies `p`. */
  lemma {:induction false} FilterIdentity<T(!new)>(xs: seq<T>, p: T -> bool)
    requires forall i :: 0 <= i < |xs| ==> p(xs[i])
    ensures Filter(xs, p) == xs
    decreases |xs|
  {
    if |xs| > 0 {
      FilterIdentity(xs[1..], p);
      assert [xs[0]] + xs[1..] == xs;
    }
  }

  /** Filtering a list with a known first element. */
  lemma FilterCons<T(!new)>(x: T, ys: seq<T>, p: T -> bool)
    ensures Filter([x] + ys, p) == (if p(x) then [x] else []) + Filter(ys, p)
  {
    assert ([x] + ys)[0] == x && ([x] + ys)[1..] == ys;
  }

  /** Filtering keeps nothing when no element satisfies `p`. */
  lemma {:induction false} FilterNone<T(!new)>(xs: seq<T>, p: T -> bool)
    requires forall i :: 0 <= i < |xs| ==> !p(xs[i])
    ensures Filter(xs, p) == []
    decreases |xs|
  {
    if |xs| > 0 {
      FilterNone(xs[1..], p);
    }
  }

  /** Filtering by `q` after `p` is filtering by `q` alone when `q` implies `p`. */
  lemma {:induction false} FilterOfFilter<T(!new)>(xs: seq<T>, p: T -> bool, q: T -> bool)
    requires forall x :: q(x) ==> p(x)
    ensures Filter(Filter(xs, p), q) == Filter(xs, q)
    decreases |xs|
  {
    if |xs| > 0 {
      var x := xs[0];
      var f := Filter(xs, p);
      var rest := Filter(xs[1..], p);
      FilterOfFilter(xs[1..], p, q);
      assert Filter(xs, q) == (if q(x) then [x] else []) + Filter(xs[1..], q);
      if p(x) {
        assert f == [x] + rest;
        assert f[0] == x && f[1..] == rest;
        assert Filter(f, q) == (if q(x) then [x] else []) + Filter(rest, q);
      } else {
        assert f == rest;
      }
    }
  }

  /** The test `x => key(x) === k`: the elements whose key is `k`. */
  function HasKey<T, K(==)>(key: T -> K, k: K): T -> bool
  {
    x => key(x) == k
  }

  lemma HasKeyMeans<T, K>(key: T -> K, k: K, x: T)
    ensures HasKey(key, k)(x) <==> key(x) == k
  {
  }

  /** One group of a group-by: the elements whose key is `k`, in list order. */
  function Members<T, K(==)>(xs: seq<T>, key: T -> K, k: K): (m: seq<T>)
    ensures forall i :: 0 <= i < |m| ==> key(m[i]) == k
  {
    if |xs| == 0 then []
    else Members(xs[..|xs| - 1], key, k) + (if key(xs[|xs| - 1]) == k then [xs[|xs| - 1]] else [])
  }

  /** One more element joins its own group at the end and leaves the others alone. */
  lemma MembersSnoc<T, K>(xs: seq<T>, x: T, key: T -> K, k: K)
    ensures Members(xs + [x], key, k) == Members(xs, key, k) + (if key(x) == k then [x] else [])
  {
    assert (xs + [x])[..|xs|] == xs;
  }

  /** A group holds exactly the elements of the list that carry its key. */
  lemma {:induction false} MembersIn<T(!new), K>(xs: seq<T>, key: T -> K, k: K)
    ensures forall x :: x in Members(xs, key, k) <==> x in xs && key(x) == k
  {
    if |xs| > 0 {
      var init := xs[..|xs| - 1];
      assert init + [xs[|xs| - 1]] == xs;
      MembersIn(init, key, k);
    }
  }

  /** A group is the list filtered to its key. */
  lemma {:induction false} MembersAreFilter<T(!new), K>(xs: seq<T>, key: T -> K, k: K)
    ensures Members(xs, key, k) == Filter(xs, HasKey(key, k))
  {
    if |xs| > 0 {
      var init := xs[..|xs| - 1];
      var x := xs[|xs| - 1];
      assert init + [x] == xs;
      MembersAreFilter(init, key, k);
      FilterAppend(init, [x], HasKey(key, k));
      assert Filter([x], HasKey(key, k)) == (if key(x) == k then [x] else []) by {
        assert [x][1..] == [];
      }
    }
  }

  /** `xs.map(f)`. */
  function MapSeq<T, U>(xs: seq<T>, f: T -> U): (r: seq<U>)
    ensures |r| == |xs|
    ensures forall i :: 0 <= i < |xs| ==> r[i] == f(xs[i])
  {
    seq(|xs|, i requires 0 <= i < |xs| => f(xs[i]))
  }

  lemma MapSnoc<T, U>(xs: seq<T>, x: T, f: T -> U)
    ensures MapSeq(xs + [x], f) == MapSeq(xs, f) + [f(x)]
  {
  }

  /** `set.add(x)` on a `Set` kept as the sequence of its insertion order. */
  function AddOnce<T(==)>(xs: seq<T>, x: T): seq<T>
  {
    if x in xs then xs else xs + [x]
  }

  /** `Array.from(new Set(xs))`: the distinct elements in the order they are first met. */
  function Distinct<T(==)>(xs: seq<T>): seq<T>
  {
    if |xs| == 0 then [] else AddOnce(Distinct(xs[..|xs| - 1]), xs[|xs| - 1])
  }

  predicate NoDuplicates<T(==)>(xs: seq<T>)
  {
    forall i, j :: 0 <= i < j < |xs| ==> xs[i] != xs[j]
  }

  lemma DistinctSnoc<T>(xs: seq<T>, x: T)
    ensures Distinct(xs + [x]) == AddOnce(Distinct(xs), x)
  {
    assert (xs + [x])[..|xs|] == xs;
  }

  /** `Array.from(new Set(xs))` lists every element of `xs` once and nothing else, and in
      first-met order: the distinct elements of any prefix of `xs` come first, as they are. */
  lemma {:induction false} DistinctFacts<T>(xs: seq<T>)
    ensures NoDuplicates(Distinct(xs))
    ensures forall x :: x in Distinct(xs) <==> x in xs
    ensures forall n :: 0 <= n <= |xs| ==> Distinct(xs[..n]) <= Distinct(xs)
    decreases |xs|
  {
    if |xs| > 0 {
      var init := xs[..|xs| - 1];
      var x := xs[|xs| - 1];
      assert init + [x] == xs;
      DistinctFacts(init);
      var d := Distinct(init);
      if x !in d {
        forall i, j | 0 <= i < j < |d| + 1 ensures (d + [x])[i] != (d + [x])[j]
        {
          if j == |d| { assert (d + [x])[i] == d[i]; assert d[i] in d; }
        }
      }
      forall n | 0 <= n <= |xs| ensures Distinct(xs[..n]) <= Distinct(xs)
      {
        if n < |xs| {
          assert xs[..n] == init[..n];
          var a, b, c := Distinct(init[..n]), d, Distinct(xs);
          assert a <= b && b <= c;
          assert a == b[..|a|] && b == c[..|b|];
          assert c[..|b|][..|a|] == c[..|a|];
        } else {
          assert xs[..n] == xs;
        }
      }
    }
  }

  /** `xs.reduce((sum, x) => sum + f(x), 0)`. */
  function Sum<T>(xs: seq<T>, f: T -> int): int
  {
    if |xs| == 0 then 0 else f(xs[0]) + Sum(xs[1..], f)
  }

  lemma {:induction false} SumAppend<T>(xs: seq<T>, ys: seq<T>, f: T -> int)
    ensures Sum(xs + ys, f) == Sum(xs, f) + Sum(ys, f)
    decreases |xs|
  {
    if |xs| == 0 {
      assert xs + ys == ys;
    } else {
      assert (xs + ys)[1..] == xs[1..] + ys;
      SumAppend(xs[1..], ys, f);
    }
  }

  /** Sum over `xs + [x]`: the step a left-to-right `reduce` takes. */
  lemma SumSnoc<T>(xs: seq<T>, x: T, f: T -> int)
    ensures Sum(xs + [x], f) == Sum(xs, f) + f(x)
  {
    SumAppend(xs, [x], f);
    assert Sum([x], f) == f(x) + Sum([x][1..], f);
  }

  /** The key order `sort((a, b) => key(b) - key(a))` produces: non-increasing keys. */
  predicate SortedDescending<T>(xs: seq<T>, key: T -> int)
  {
    forall i, j :: 0 <= i < j < |xs| ==> key(xs[i]) >= key(xs[j])
  }

  /** Inserts `x` before the first element whose key is not greater than its own. */
  function InsertDescending<T>(x: T, ys: seq<T>, key: T -> int): (r: seq<T>)
    requires SortedDescending(ys, key)
    ensures SortedDescending(r, key)
    ensures multiset(r) == multiset(ys) + multiset{x}
    ensures |r| == |ys| + 1
    ensures r[0] == x || (|ys| > 0 && r[0] == ys[0])
    decreases |ys|
  {
    if |ys| == 0 || key(x) >= key(ys[0]) then [x] + ys
    else
      var tail := InsertDescending(x, ys[1..], key);
      assert ys == [ys[0]] + ys[1..];
      ConsSorted(ys[0], tail, key);
      [ys[0]] + tail
  }

  /** A head no smaller than the first key of a sorted tail keeps the order. */
  lemma ConsSorted<T>(h: T, t: seq<T>, key: T -> int)
    requires SortedDescending(t, key)
    requires |t| > 0 ==> key(h) >= key(t[0])
    ensures SortedDescending([h] + t, key)
  {
    var r := [h] + t;
    forall i, j | 0 <= i < j < |r|
      ensures key(r[i]) >= key(r[j])
    {
      if i == 0 {
        assert r[j] == t[j - 1];
        assert key(t[0]) >= key(t[j - 1]) || j == 1;
      } else {
        assert r[i] == t[i - 1] && r[j] == t[j - 1];
      }
    }
  }

  /** Inserting `x` puts it after every element with a greater key and before every
      other, so among the elements with its key it comes first. */
  lemma {:induction false} InsertKeepsTies<T(!new)>(x: T, ys: seq<T>, key: T -> int, k: int)
    requires SortedDescending(ys, key)
    ensures Filter(InsertDescending(x, ys, key), HasKey(key, k)) == Filter([x] + ys, HasKey(key, k))
    decreases |ys|
  {
    if |ys| > 0 && key(x) < key(ys[0]) {
      var p := HasKey(key, k);
      var y, rest := ys[0], ys[1..];
      var tail := InsertDescending(x, rest, key);
      assert ys == [y] + rest;
      InsertKeepsTies(x, rest, key, k);
      assert InsertDescending(x, ys, key) == [y] + tail;
      FilterCons(y, tail, p);
      FilterCons(x, rest, p);
      FilterCons(x, ys, p);
      FilterCons(y, rest, p);
      assert !(p(x) && p(y));
      SwapKept(x, y, Filter(rest, p), p);
    }
  }

  /** Two elements that `p` does not both keep can trade places under a filter. */
  lemma SwapKept<T>(x: T, y: T, f: seq<T>, p: T -> bool)
    requires !(p(x) && p(y))
    ensures (if p(y) then [y] else []) + ((if p(x) then [x] else []) + f)
            == (if p(x) then [x] else []) + ((if p(y) then [y] else []) + f)
  {
  }

  /** The sort is stable: the elements with any one key keep their input order. */
  lemma {:induction false} SortIsStable<T(!new)>(xs: seq<T>, key: T -> int, k: int)
    ensures Filter(SortDescending(xs, key), HasKey(key, k)) == Filter(xs, HasKey(key, k))
    decreases |xs|
  {
    if |xs| > 0 {
      var rest := SortDescending(xs[1..], key);
      SortIsStable(xs[1..], key, k);
      InsertKeepsTies(xs[0], rest, key, k);
      FilterCons(xs[0], rest, HasKey(key, k));
      FilterCons(xs[0], xs[1..], HasKey(key, k));
      assert xs == [xs[0]] + xs[1..];
    }
  }

  /** Stable insertion sort into non-increasing key order; a permutation of `xs`. */
  function SortDescending<T>(xs: seq<T>, key: T -> int): (r: seq<T>)
    ensures SortedDescending(r, key)
    ensures multiset(r) == multiset(xs)
    ensures |r| == |xs|
    decreases |xs|
  {
    if |xs| == 0 then []
    else
      assert xs == [xs[0]] + xs[1..];
      InsertDescending(xs[0], SortDescending(xs[1..], key), key)
  }
}
