/**
  Order-preserving list operations on immutable sequences: the meaning the pages rely on
  for JavaScript's `Array.prototype.filter` and `Array.prototype.find`.
 */
module Sequences {
  import opened Wrappers

  /** `r` is an order-preserving subsequence of `s`: its elements occur in `s` in the same order
      (matched from the left, which is complete for subsequences). */
  predicate IsSubsequence<T(==)>(r: seq<T>, s: seq<T>)
    decreases |s|
  {
    if r == [] then true
    else if s == [] then false
    else if r[0] == s[0] then IsSubsequence(r[1..], s[1..])
    else IsSubsequence(r, s[1..])
  }

  /** `s.filter(p)`: the elements of `s` that satisfy `p`, in their original order. */
  function Filter<T>(p: T -> bool, s: seq<T>): (r: seq<T>)
    ensures |r| <= |s|
  {
    if s == [] then []
    else if p(s[0]) then [s[0]] + Filter(p, s[1..])
    else Filter(p, s[1..])
  }

  /** The filter keeps exactly the elements that satisfy the predicate, as an order-preserving subsequence. */
  lemma {:induction false} FilterSpec<T>(p: T -> bool, s: seq<T>)
    ensures forall x :: x in Filter(p, s) ==> x in s && p(x)
    ensures forall x :: x in s && p(x) ==> x in Filter(p, s)
    ensures IsSubsequence(Filter(p, s), s)
    decreases |s|
  {
    if s != [] {
      FilterSpec(p, s[1..]);
      var rest := Filter(p, s[1..]);
      assert s == [s[0]] + s[1..];
      if p(s[0]) {
        assert ([s[0]] + rest)[0] == s[0] && ([s[0]] + rest)[1..] == rest;
      }
    }
  }

  /** The filter keeps every occurrence of a satisfying element and no occurrence of any other. */
  lemma {:induction false} FilterMultiset<T>(p: T -> bool, s: seq<T>, x: T)
    ensures multiset(Filter(p, s))[x] == if p(x) then multiset(s)[x] else 0
  {
    if s != [] {
      FilterMultiset(p, s[1..], x);
      assert s == [s[0]] + s[1..];
    }
  }

  /** The multiplicity statement of `FilterMultiset`, for every element at once. */
  lemma FilterMultisetAll<T>(p: T -> bool, s: seq<T>)
    ensures forall x :: multiset(Filter(p, s))[x] == if p(x) then multiset(s)[x] else 0
  {
    forall x ensures multiset(Filter(p, s))[x] == if p(x) then multiset(s)[x] else 0 {
      FilterMultiset(p, s, x);
    }
  }

  /** Filtering by `p` and then by `q` is filtering once by their conjunction `both`. */
  lemma {:induction false} FilterCompose<T>(p: T -> bool, q: T -> bool, both: T -> bool, s: seq<T>)
    requires forall x :: both(x) == (p(x) && q(x))
    ensures Filter(q, Filter(p, s)) == Filter(both, s)
    decreases |s|
  {
    if s != [] {
      FilterCompose(p, q, both, s[1..]);
      if p(s[0]) {
        FilterCons(q, s[0], Filter(p, s[1..]));
      }
    }
  }

  /** The filter returns its input unchanged exactly when every element satisfies the predicate. */
  lemma {:induction false} FilterKeepsAll<T>(p: T -> bool, s: seq<T>)
    ensures Filter(p, s) == s <==> forall i :: 0 <= i < |s| ==> p(s[i])
  {
    if s != [] {
      FilterKeepsAll(p, s[1..]);
      if forall i :: 0 <= i < |s| ==> p(s[i]) {
        assert forall i :: 0 <= i < |s[1..]| ==> p(s[1..][i]) by {
          forall i | 0 <= i < |s[1..]| ensures p(s[1..][i]) {
            assert s[1..][i] == s[i + 1];
          }
        }
        assert s == [s[0]] + s[1..];
      }
      if Filter(p, s) == s {
        forall i | 0 <= i < |s| ensures p(s[i]) {
          assert s[i] in Filter(p, s);
        }
      }
    }
  }

  /** The filter keeps as many elements as its input holds exactly when every element satisfies the predicate. */
  lemma {:induction false} FilterLengthFull<T>(p: T -> bool, s: seq<T>)
    ensures |Filter(p, s)| == |s| <==> forall i :: 0 <= i < |s| ==> p(s[i])
  {
    if s != [] {
      FilterLengthFull(p, s[1..]);
      if forall i :: 0 <= i < |s| ==> p(s[i]) {
        assert forall i :: 0 <= i < |s[1..]| ==> p(s[1..][i]) by {
          forall i | 0 <= i < |s[1..]| ensures p(s[1..][i]) {
            assert s[1..][i] == s[i + 1];
          }
        }
      }
      if p(s[0]) && forall i :: 0 <= i < |s[1..]| ==> p(s[1..][i]) {
        forall i | 0 <= i < |s| ensures p(s[i]) {
          if i > 0 { assert s[i] == s[1..][i - 1]; }
        }
      }
    }
  }

  /** Filtering the output of a filter with the same predicate changes nothing. */
  lemma FilterIdempotent<T>(p: T -> bool, s: seq<T>)
    ensures Filter(p, Filter(p, s)) == Filter(p, s)
  {
    var r := Filter(p, s);
    FilterSpec(p, s);
    assert forall i :: 0 <= i < |r| ==> p(r[i]) by {
      forall i | 0 <= i < |r| ensures p(r[i]) {
        assert r[i] in r;
      }
    }
    FilterKeepsAll(p, r);
  }

  /** Two predicates that agree on the elements of `s` filter it alike. */
  lemma {:induction false} FilterExtensional<T>(p: T -> bool, q: T -> bool, s: seq<T>)
    requires forall x :: x in s ==> p(x) == q(x)
    ensures Filter(p, s) == Filter(q, s)
  {
    if s != [] {
      assert forall x :: x in s[1..] ==> x in s;
      FilterExtensional(p, q, s[1..]);
    }
  }

  /** Two predicates that never hold together keep at most `|s|` elements between them. */
  lemma {:induction false} FilterDisjointLength<T>(p: T -> bool, q: T -> bool, s: seq<T>)
    requires forall x :: x in s ==> !(p(x) && q(x))
    ensures |Filter(p, s)| + |Filter(q, s)| <= |s|
  {
    if s != [] {
      assert forall x :: x in s[1..] ==> x in s;
      FilterDisjointLength(p, q, s[1..]);
    }
  }

  /** One step of the filter: the head is kept exactly when it satisfies the predicate. */
  lemma FilterCons<T>(p: T -> bool, x: T, s: seq<T>)
    ensures Filter(p, [x] + s) == (if p(x) then [x] else []) + Filter(p, s)
  {
    assert ([x] + s)[0] == x && ([x] + s)[1..] == s;
  }

  /** The filter of a three-element sequence, element by element. */
  lemma FilterThree<T>(p: T -> bool, a: T, b: T, c: T)
    ensures Filter(p, [a, b, c]) == (if p(a) then [a] else []) + (if p(b) then [b] else []) + (if p(c) then [c] else [])
  {
    assert [c] == [c] + [];
    FilterCons(p, c, []);
    assert [b, c] == [b] + [c];
    FilterCons(p, b, [c]);
    assert [a, b, c] == [a] + [b, c];
    FilterCons(p, a, [b, c]);
  }

  /** The filter of a four-element sequence, element by element. */
  lemma FilterFour<T>(p: T -> bool, a: T, b: T, c: T, d: T)
    ensures Filter(p, [a, b, c, d])
      == (if p(a) then [a] else []) + (if p(b) then [b] else []) + (if p(c) then [c] else []) + (if p(d) then [d] else [])
  {
    FilterThree(p, b, c, d);
    assert [a, b, c, d] == [a] + [b, c, d];
    FilterCons(p, a, [b, c, d]);
  }

  /** Filtering a concatenation filters each part. */
  lemma {:induction false} FilterConcat<T>(p: T -> bool, a: seq<T>, b: seq<T>)
    ensures Filter(p, a + b) == Filter(p, a) + Filter(p, b)
    decreases |a|
  {
    if a == [] {
      assert a + b == b;
    } else {
      var head := if p(a[0]) then [a[0]] else [];
      calc {
        Filter(p, a + b);
      == { assert a + b == [a[0]] + (a[1..] + b); FilterCons(p, a[0], a[1..] + b); }
        head + Filter(p, a[1..] + b);
      == { FilterConcat(p, a[1..], b); }
        head + (Filter(p, a[1..]) + Filter(p, b));
      == { assert a == [a[0]] + a[1..]; FilterCons(p, a[0], a[1..]); }
        Filter(p, a) + Filter(p, b);
      }
    }
  }

  /** The positions of `s` whose element satisfies `p`. */
  function IndicesWhere<T>(p: T -> bool, s: seq<T>): set<int>
  {
    set i | 0 <= i < |s| && p(s[i])
  }

  /** Appending one element adds its position exactly when it satisfies the predicate. */
  lemma IndicesWhereSnoc<T>(p: T -> bool, init: seq<T>, last: T)
    ensures IndicesWhere(p, init + [last]) == IndicesWhere(p, init) + (if p(last) then {|init|} else {})
  {
    var s := init + [last];
    forall i | 0 <= i < |init| ensures s[i] == init[i] {
    }
    assert s[|init|] == last;
  }

  /** The filter keeps one element per position that satisfies the predicate. */
  lemma {:induction false} FilterLengthCountsIndices<T>(p: T -> bool, s: seq<T>)
    ensures |Filter(p, s)| == |IndicesWhere(p, s)|
    decreases |s|
  {
    if s != [] {
      var init, last := s[..|s| - 1], s[|s| - 1];
      assert s == init + [last];
      FilterLengthCountsIndices(p, init);
      FilterConcat(p, init, [last]);
      assert [last] == [last] + [];
      FilterCons(p, last, []);
      IndicesWhereSnoc(p, init, last);
      var prev := IndicesWhere(p, init);
      assert |init| !in prev;
    }
  }

  /** The position of the first element of `s` that satisfies `p`, if any. */
  function FirstIndex<T>(p: T -> bool, s: seq<T>): (r: Option<nat>)
    ensures r.Some? ==> r.value < |s| && p(s[r.value]) && forall j :: 0 <= j < r.value ==> !p(s[j])
    ensures r.None? ==> forall j :: 0 <= j < |s| ==> !p(s[j])
  {
    if s == [] then None
    else if p(s[0]) then Some(0)
    else
      match FirstIndex(p, s[1..])
      case None => None
      case Some(i) => Some(i + 1)
  }

  /** `s.find(p)`: the first element of `s` that satisfies `p`, or nothing when none does. */
  function Find<T>(p: T -> bool, s: seq<T>): (r: Option<T>)
    ensures r.None? <==> forall i :: 0 <= i < |s| ==> !p(s[i])
    ensures r.Some? ==> exists i :: 0 <= i < |s| && s[i] == r.value && p(s[i]) && forall j :: 0 <= j < i ==> !p(s[j])
  {
    match FirstIndex(p, s)
    case None => None
    case Some(i) => Some(s[i])
  }

  /** `find` returns the element at the first position that satisfies the predicate. */
  lemma FindIsFirst<T>(p: T -> bool, s: seq<T>, k: int)
    requires 0 <= k < |s| && p(s[k])
    requires forall j :: 0 <= j < k ==> !p(s[j])
    ensures Find(p, s) == Some(s[k])
  {
    var r := Find(p, s);
    var i :| 0 <= i < |s| && s[i] == r.value && p(s[i]) && forall j :: 0 <= j < i ==> !p(s[j]);
    assert i == k;
  }
}
