/**
 * Order-preserving filtering and counting over sequences: the model of
 * JavaScript's `Array.prototype.filter(...)` and `filter(...).length`,
 * which every page uses to shape the rows it fetched.
 *
 * Both are defined by peeling off the LAST element, so that a loop that
 * walks `s[..i]` from left to right lines up with the definition.
 */
module Seqs {
  import opened Base

  /** The elements of `s` that satisfy `keep`, in their original order. */
  function Filter<T>(s: seq<T>, keep: T -> bool): (r: seq<T>)
    ensures |r| <= |s|
    ensures forall x :: x in r ==> x in s && keep(x)
    ensures forall x :: x in s && keep(x) ==> x in r
    decreases |s|
  {
    if s == [] then []
    else
      var init, last := s[..|s| - 1], s[|s| - 1];
      assert s == init + [last];
      Filter(init, keep) + (if keep(last) then [last] else [])
  }

  /** How many elements of `s` satisfy `p`. */
  function Count<T>(s: seq<T>, p: T -> bool): nat
  {
    |Filter(s, p)|
  }

  /** `r` can be obtained from `s` by deleting elements, keeping the order of the rest. */
  ghost predicate IsSubsequence<T>(r: seq<T>, s: seq<T>)
    decreases |s|
  {
    if s == [] then r == []
    else
      IsSubsequence(r, s[..|s| - 1])
      || (r != [] && r[|r| - 1] == s[|s| - 1] && IsSubsequence(r[..|r| - 1], s[..|s| - 1]))
  }

  lemma {:induction false} FilterIsSubsequence<T>(s: seq<T>, keep: T -> bool)
    ensures IsSubsequence(Filter(s, keep), s)
    decreases |s|
  {
    if s != [] {
      var init, last := s[..|s| - 1], s[|s| - 1];
      FilterIsSubsequence(init, keep);
      var r := Filter(s, keep);
      if keep(last) {
        assert r[..|r| - 1] == Filter(init, keep);
      } else {
        assert r == Filter(init, keep);
      }
    }
  }

  /** Filtering with a predicate that every element satisfies changes nothing. */
  lemma {:induction false} FilterKeepsAll<T>(s: seq<T>, keep: T -> bool)
    requires forall x :: x in s ==> keep(x)
    ensures Filter(s, keep) == s
    decreases |s|
  {
    if s != [] {
      var init, last := s[..|s| - 1], s[|s| - 1];
      assert s == init + [last];
      forall x | x in init
        ensures keep(x)
      {
        assert x in s;
      }
      FilterKeepsAll(init, keep);
      assert keep(last);
    }
  }

  /** Filtering extends by one element exactly when the appended element is kept. */
  lemma FilterSnoc<T>(s: seq<T>, x: T, keep: T -> bool)
    ensures Filter(s + [x], keep) == Filter(s, keep) + (if keep(x) then [x] else [])
  {
    assert (s + [x])[..|s|] == s;
  }

  lemma CountSnoc<T>(s: seq<T>, x: T, p: T -> bool)
    ensures Count(s + [x], p) == Count(s, p) + (if p(x) then 1 else 0)
  {
    FilterSnoc(s, x, p);
  }

  /** The predicate that holds of everything. */
  function Always<T>(x: T): bool
  {
    true
  }

  /** Everything satisfies `Always`, so counting it counts every element. */
  lemma {:induction false} CountAlways<T>(s: seq<T>)
    ensures Count(s, Always) == |s|
    decreases |s|
  {
    if s != [] {
      CountAlways(s[..|s| - 1]);
    }
  }

  /** Two predicates that never hold together, and each imply a third, count no more than the third. */
  lemma {:induction false} CountDisjointBound<T>(s: seq<T>, p: T -> bool, q: T -> bool, r: T -> bool)
    requires forall x :: x in s ==> !(p(x) && q(x))
    requires forall x :: x in s && (p(x) || q(x)) ==> r(x)
    ensures Count(s, p) + Count(s, q) <= Count(s, r)
    decreases |s|
  {
    if s != [] {
      var init, last := s[..|s| - 1], s[|s| - 1];
      assert forall x :: x in init ==> x in s;
      CountDisjointBound(init, p, q, r);
      assert s == init + [last];
      CountSnoc(init, last, p);
      CountSnoc(init, last, q);
      CountSnoc(init, last, r);
    }
  }

  /** Nothing is counted when no element satisfies the predicate. */
  lemma {:induction false} CountNone<T>(s: seq<T>, p: T -> bool)
    requires forall x :: x in s ==> !p(x)
    ensures Count(s, p) == 0
    decreases |s|
  {
    if s != [] {
      var init, last := s[..|s| - 1], s[|s| - 1];
      assert forall x :: x in init ==> x in s;
      CountNone(init, p);
      assert s == init + [last];
      CountSnoc(init, last, p);
    }
  }

  /** Counting is monotone in the predicate. */
  lemma {:induction false} CountMonotone<T>(s: seq<T>, p: T -> bool, q: T -> bool)
    requires forall x :: x in s && p(x) ==> q(x)
    ensures Count(s, p) <= Count(s, q)
    decreases |s|
  {
    if s != [] {
      var init, last := s[..|s| - 1], s[|s| - 1];
      assert forall x :: x in init ==> x in s;
      CountMonotone(init, p, q);
      assert s == init + [last];
      CountSnoc(init, last, p);
      CountSnoc(init, last, q);
    }
  }

  /** The sum of a sequence of counts. */
  function Sum(s: seq<nat>): nat
    decreases |s|
  {
    if s == [] then 0 else Sum(s[..|s| - 1]) + s[|s| - 1]
  }

  lemma SumSnoc(s: seq<nat>, x: nat)
    ensures Sum(s + [x]) == Sum(s) + x
  {
    assert (s + [x])[..|s|] == s;
  }

  /** Two predicates that never hold together, and whose disjunction is a third, add up to its count. */
  lemma {:induction false} CountDisjointUnion<T>(s: seq<T>, p: T -> bool, q: T -> bool, r: T -> bool)
    requires forall x :: x in s ==> !(p(x) && q(x))
    requires forall x :: x in s ==> (r(x) <==> p(x) || q(x))
    ensures Count(s, p) + Count(s, q) == Count(s, r)
    decreases |s|
  {
    if s != [] {
      var init, last := s[..|s| - 1], s[|s| - 1];
      assert forall x :: x in init ==> x in s;
      CountDisjointUnion(init, p, q, r);
      assert s == init + [last];
      CountSnoc(init, last, p);
      CountSnoc(init, last, q);
      CountSnoc(init, last, r);
    }
  }

  // ---------- counting by key ----------

  /** The elements whose tag is `k`. */
  function TagIs<T, K(==)>(tag: T -> Option<K>, k: K): T -> bool
  {
    x => tag(x) == Some(k)
  }

  /** The elements whose tag is one of `ks`. */
  function TagIn<T, K(==)>(tag: T -> Option<K>, ks: seq<K>): T -> bool
  {
    x => tag(x).Some? && tag(x).value in ks
  }

  /** How many elements of `s` carry the tag `k`: the bucket of `k`. */
  function CountKey<T, K(==)>(s: seq<T>, tag: T -> Option<K>, k: K): nat
  {
    Count(s, TagIs(tag, k))
  }

  /** The bucket sizes of the keys `ks`, in their order. */
  function CountsPerKey<T, K(==)>(s: seq<T>, tag: T -> Option<K>, ks: seq<K>): (r: seq<nat>)
    ensures |r| == |ks|
    ensures forall i :: 0 <= i < |ks| ==> r[i] == CountKey(s, tag, ks[i])
  {
    seq(|ks|, i requires 0 <= i < |ks| => CountKey(s, tag, ks[i]))
  }

  lemma CountKeySnoc<T, K>(s: seq<T>, x: T, tag: T -> Option<K>, k: K)
    ensures CountKey(s + [x], tag, k) == CountKey(s, tag, k) + (if tag(x) == Some(k) then 1 else 0)
  {
    CountSnoc(s, x, TagIs(tag, k));
  }

  predicate Distinct<K(==)>(ks: seq<K>)
  {
    forall i, j :: 0 <= i < j < |ks| ==> ks[i] != ks[j]
  }

  /**
   * Buckets of distinct keys share no element, so together they hold
   * exactly the elements tagged with one of the keys, and no more than `s`.
   */
  lemma {:induction false} SumCountsPerKey<T, K>(s: seq<T>, tag: T -> Option<K>, ks: seq<K>)
    requires Distinct(ks)
    ensures Sum(CountsPerKey(s, tag, ks)) == Count(s, TagIn(tag, ks))
    ensures Sum(CountsPerKey(s, tag, ks)) <= |s|
    decreases |ks|
  {
    if ks == [] {
      CountNone(s, TagIn(tag, ks));
    } else {
      var init, k := ks[..|ks| - 1], ks[|ks| - 1];
      assert Distinct(init) by {
        forall i, j | 0 <= i < j < |init| ensures init[i] != init[j] {
          assert init[i] == ks[i] && init[j] == ks[j];
        }
      }
      SumCountsPerKey(s, tag, init);
      assert CountsPerKey(s, tag, ks) == CountsPerKey(s, tag, init) + [CountKey(s, tag, k)];
      SumSnoc(CountsPerKey(s, tag, init), CountKey(s, tag, k));
      TagInSnoc(s, tag, ks);
      CountDisjointUnion(s, TagIn(tag, init), TagIs(tag, k), TagIn(tag, ks));
    }
  }

  /** The last of distinct keys is not among the others, so the buckets split. */
  lemma TagInSnoc<T, K>(s: seq<T>, tag: T -> Option<K>, ks: seq<K>)
    requires Distinct(ks) && ks != []
    ensures var init, k := ks[..|ks| - 1], ks[|ks| - 1];
      (forall x :: x in s ==> !(TagIn(tag, init)(x) && TagIs(tag, k)(x)))
      && (forall x :: x in s ==> (TagIn(tag, ks)(x) <==> TagIn(tag, init)(x) || TagIs(tag, k)(x)))
  {
    var init, k := ks[..|ks| - 1], ks[|ks| - 1];
    assert k !in init by {
      forall j | 0 <= j < |init| ensures init[j] != k {
        assert init[j] == ks[j];
      }
    }
    assert ks == init + [k];
  }

  /** The distinct values of `f` over `s`: `new Set(s.map(f))`. */
  function Image<T(==), K>(s: seq<T>, f: T -> K): set<K>
  {
    set x | x in s :: f(x)
  }

  /** The number of distinct values of `f` over `s` is at most the length of `s`. */
  lemma {:induction false} ImageSizeBound<T, K>(s: seq<T>, f: T -> K)
    ensures |Image(s, f)| <= |s|
    decreases |s|
  {
    if s != [] {
      var init, last := s[..|s| - 1], s[|s| - 1];
      ImageSizeBound(init, f);
      assert s == init + [last];
      assert Image(s, f) == Image(init, f) + {f(last)};
    }
  }

  lemma ImageNonEmpty<T, K>(s: seq<T>, f: T -> K)
    ensures s != [] ==> |Image(s, f)| >= 1
  {
    if s != [] {
      assert f(s[0]) in Image(s, f);
    }
  }
}
