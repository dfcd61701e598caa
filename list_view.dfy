/**
  The list-view pattern every dashboard component repeats: an ordered record
  list, reduced by `Array.prototype.filter`, summarised by `filter(...).length`,
  `reduce` sums, `[...new Set(...)]` and `Math.round` percentages.
 */
module ListView {

  datatype Option<T> = None | Some(value: T)

  /** r is obtained from s by deleting elements and keeping the rest in order. */
  predicate IsSubsequence<T(==)>(r: seq<T>, s: seq<T>)
    decreases |s|
  {
    if r == [] then true
    else if s == [] then false
    else if r[0] == s[0] then IsSubsequence(r[1..], s[1..])
    else IsSubsequence(r, s[1..])
  }

  /** Every list is a sublist of itself. */
  lemma {:induction false} IsSubsequenceReflexive<T>(s: seq<T>)
    ensures IsSubsequence(s, s)
  {
    if s != [] {
      IsSubsequenceReflexive(s[1..]);
    }
  }

  /** `s.filter(p)`: the elements satisfying p, in their original order. */
  function Filter<T(==)>(s: seq<T>, p: T -> bool): (r: seq<T>)
    ensures |r| <= |s|
    ensures forall x :: x in r ==> x in s && p(x)
    ensures forall i :: 0 <= i < |s| && p(s[i]) ==> s[i] in r
    ensures IsSubsequence(r, s)
  {
    if s == [] then []
    else if p(s[0]) then
      var rest := Filter(s[1..], p);
      assert ([s[0]] + rest)[1..] == rest;
      [s[0]] + rest
    else
      var rest := Filter(s[1..], p);
      assert rest != [] ==> rest[0] in rest && rest[0] != s[0];
      rest
  }

  /** A predicate that holds of every element keeps the whole list. */
  lemma {:induction false} FilterKeepsAll<T>(s: seq<T>, p: T -> bool)
    requires forall x :: x in s ==> p(x)
    ensures Filter(s, p) == s
  {
    if s != [] {
      assert s[0] in s;
      FilterKeepsAll(s[1..], p);
    }
  }

  /** A predicate that holds of no element keeps nothing. */
  lemma FilterKeepsNone<T>(s: seq<T>, p: T -> bool)
    requires forall x :: x in s ==> !p(x)
    ensures Filter(s, p) == []
  {
  }

  /** Two predicates that agree on the elements select the same elements. */
  lemma {:induction false} FilterAgree<T>(s: seq<T>, p: T -> bool, q: T -> bool)
    requires forall x :: x in s ==> p(x) == q(x)
    ensures Filter(s, p) == Filter(s, q)
  {
    if s != [] {
      assert s[0] in s;
      FilterAgree(s[1..], p, q);
    }
  }

  /** Filtering distributes over concatenation. */
  lemma {:induction false} FilterConcat<T>(a: seq<T>, b: seq<T>, p: T -> bool)
    ensures Filter(a + b, p) == Filter(a, p) + Filter(b, p)
  {
    if a == [] {
      assert a + b == b;
    } else {
      assert (a + b)[0] == a[0];
      assert (a + b)[1..] == a[1..] + b;
      FilterConcat(a[1..], b, p);
    }
  }

  /** Filtering by p and then by q is filtering once by their conjunction pq. */
  lemma {:induction false} FilterFilter<T>(s: seq<T>, p: T -> bool, q: T -> bool, pq: T -> bool)
    requires forall x :: x in s ==> pq(x) == (p(x) && q(x))
    ensures Filter(Filter(s, p), q) == Filter(s, pq)
  {
    if s != [] {
      assert s[0] in s;
      FilterFilter(s[1..], p, q, pq);
      if p(s[0]) {
        assert ([s[0]] + Filter(s[1..], p))[1..] == Filter(s[1..], p);
      }
    }
  }

  /** A predicate and its negation split the list: their counts add up to its length. */
  lemma {:induction false} FilterSplit<T>(s: seq<T>, p: T -> bool, q: T -> bool)
    requires forall x :: x in s ==> q(x) == !p(x)
    ensures |Filter(s, p)| + |Filter(s, q)| == |s|
  {
    if s != [] {
      assert s[0] in s;
      FilterSplit(s[1..], p, q);
    }
  }

  /** A sublist has at most as many elements satisfying p as the list it comes from. */
  lemma {:induction false} FilterCountSubsequence<T>(r: seq<T>, s: seq<T>, p: T -> bool)
    requires IsSubsequence(r, s)
    ensures |Filter(r, p)| <= |Filter(s, p)|
    decreases |s|
  {
    if r == [] {
    } else if r[0] == s[0] {
      FilterCountSubsequence(r[1..], s[1..], p);
    } else {
      FilterCountSubsequence(r, s[1..], p);
    }
  }

  /**
    Counting is monotone under a pointwise implication: if every position of t
    that satisfies q sits where s satisfies p, t has at most as many.
   */
  lemma {:induction false} FilterCountMonotone<T>(s: seq<T>, t: seq<T>, p: T -> bool, q: T -> bool)
    requires |s| == |t|
    requires forall i :: 0 <= i < |t| && q(t[i]) ==> p(s[i])
    ensures |Filter(t, q)| <= |Filter(s, p)|
  {
    if s != [] {
      FilterCountMonotone(s[1..], t[1..], p, q);
    }
  }

  /**
    Filtering keeps every copy: an element satisfying p occurs in the result
    exactly as often as in s, any other element not at all.
   */
  lemma {:induction false} FilterOccurrences<T>(s: seq<T>, p: T -> bool)
    ensures forall x :: multiset(Filter(s, p))[x] == if p(x) then multiset(s)[x] else 0
  {
    if s != [] {
      FilterOccurrences(s[1..], p);
      assert s == [s[0]] + s[1..];
      assert multiset(s) == multiset{s[0]} + multiset(s[1..]);
      if p(s[0]) {
        assert multiset(Filter(s, p)) == multiset{s[0]} + multiset(Filter(s[1..], p));
      }
    }
  }

  /** The filter is empty exactly when no element satisfies p. */
  lemma FilterEmpty<T>(s: seq<T>, p: T -> bool)
    ensures Filter(s, p) == [] <==> forall x :: x in s ==> !p(x)
  {
    if Filter(s, p) != [] {
      assert Filter(s, p)[0] in Filter(s, p);
    }
  }

  /** A count is at most the length, and zero exactly when no element satisfies p. */
  function Count<T(==)>(s: seq<T>, p: T -> bool): (r: nat)
    ensures r <= |s|
    ensures r == 0 <==> forall x :: x in s ==> !p(x)
  {
    FilterEmpty(s, p);
    |Filter(s, p)|
  }

  /** Reference sum of f over s. */
  function Sum<T>(s: seq<T>, f: T -> int): int
  {
    if s == [] then 0 else f(s[0]) + Sum(s[1..], f)
  }

  /** `s.reduce((acc, x) => acc + f(x), acc)`: the left fold the components run. */
  function FoldSum<T>(acc: int, s: seq<T>, f: T -> int): int
    decreases |s|
  {
    if s == [] then acc else FoldSum(acc + f(s[0]), s[1..], f)
  }

  /** The left fold computes the sum, whatever the start value. */
  lemma {:induction false} FoldSumIsSum<T>(acc: int, s: seq<T>, f: T -> int)
    ensures FoldSum(acc, s, f) == acc + Sum(s, f)
    decreases |s|
  {
    if s != [] {
      FoldSumIsSum(acc + f(s[0]), s[1..], f);
    }
  }

  /** Sums are additive over concatenation. */
  lemma {:induction false} SumConcat<T>(a: seq<T>, b: seq<T>, f: T -> int)
    ensures Sum(a + b, f) == Sum(a, f) + Sum(b, f)
  {
    if a == [] {
      assert a + b == b;
    } else {
      assert (a + b)[1..] == a[1..] + b;
      SumConcat(a[1..], b, f);
    }
  }

  /** A sum equals the sums over the two halves of any split by a predicate and its negation. */
  lemma {:induction false} SumSplit<T>(s: seq<T>, p: T -> bool, q: T -> bool, f: T -> int)
    requires forall x :: x in s ==> q(x) == !p(x)
    ensures Sum(s, f) == Sum(Filter(s, p), f) + Sum(Filter(s, q), f)
  {
    if s != [] {
      assert s[0] in s;
      SumSplit(s[1..], p, q, f);
      if p(s[0]) {
        assert ([s[0]] + Filter(s[1..], p))[1..] == Filter(s[1..], p);
      } else {
        assert ([s[0]] + Filter(s[1..], q))[1..] == Filter(s[1..], q);
      }
    }
  }

  /** A lower bound on every term gives a lower bound on the sum. */
  lemma {:induction false} SumAtLeast<T>(s: seq<T>, f: T -> int, m: int)
    requires forall x :: x in s ==> f(x) >= m
    ensures Sum(s, f) >= |s| * m
  {
    if s != [] {
      assert s[0] in s;
      SumAtLeast(s[1..], f, m);
      assert |s| * m == m + (|s| - 1) * m;
    }
  }

  /** An upper bound on every term gives an upper bound on the sum. */
  lemma {:induction false} SumAtMost<T>(s: seq<T>, f: T -> int, m: int)
    requires forall x :: x in s ==> f(x) <= m
    ensures Sum(s, f) <= |s| * m
  {
    if s != [] {
      assert s[0] in s;
      SumAtMost(s[1..], f, m);
      assert |s| * m == m + (|s| - 1) * m;
    }
  }

  predicate NoDuplicates<K(==)>(s: seq<K>)
  {
    forall i, j :: 0 <= i < j < |s| ==> s[i] != s[j]
  }

  /** The position of the first occurrence of x in s. */
  function IndexOf<K(==)>(s: seq<K>, x: K): (r: nat)
    requires x in s
    ensures r < |s| && s[r] == x
    ensures forall k :: 0 <= k < r ==> s[k] != x
  {
    if s[0] == x then 0 else 1 + IndexOf(s[1..], x)
  }

  /**
    `[...new Set(s)]`: each value once, in the order in which it first occurs
    (a JavaScript Set iterates in insertion order and ignores re-insertions).
   */
  function Distinct<K(==)>(s: seq<K>): (r: seq<K>)
    ensures NoDuplicates(r)
    ensures forall x :: x in r ==> x in s
    ensures forall x :: x in s ==> x in r
    decreases |s|
  {
    if s == [] then []
    else
      var d := Distinct(s[..|s| - 1]);
      var last := s[|s| - 1];
      assert forall x :: x in s ==> x in s[..|s| - 1] || x == last by {
        assert s == s[..|s| - 1] + [last];
      }
      if last in d then d else d + [last]
  }

  lemma IndexOfInPrefix<K>(p: seq<K>, y: K, x: K)
    requires x in p
    ensures IndexOf(p + [y], x) == IndexOf(p, x)
  {
    var i, j := IndexOf(p + [y], x), IndexOf(p, x);
    assert (p + [y])[j] == x;
  }

  /** Distinct lists the values in the order of their first occurrences. */
  lemma {:induction false} DistinctFirstSeenOrder<K>(s: seq<K>)
    ensures forall i, j :: 0 <= i < j < |Distinct(s)| ==>
      IndexOf(s, Distinct(s)[i]) < IndexOf(s, Distinct(s)[j])
  {
    if s != [] {
      var p, y := s[..|s| - 1], s[|s| - 1];
      assert s == p + [y];
      DistinctFirstSeenOrder(p);
      var d := Distinct(p);
      forall x | x in d ensures IndexOf(s, x) == IndexOf(p, x) {
        IndexOfInPrefix(p, y, x);
      }
      if y !in d {
        assert IndexOf(s, y) == |p| by {
          assert forall k :: 0 <= k < |p| ==> s[k] == p[k];
        }
        assert Distinct(s) == d + [y];
        forall i, j | 0 <= i < j < |Distinct(s)|
          ensures IndexOf(s, Distinct(s)[i]) < IndexOf(s, Distinct(s)[j])
        {
          if j < |d| {
            assert Distinct(s)[i] == d[i] && Distinct(s)[j] == d[j];
          } else {
            assert Distinct(s)[i] == d[i] && d[i] in d;
          }
        }
      }
    }
  }

  /** How many times k occurs in s. */
  function Occurrences<K(==)>(s: seq<K>, k: K): nat
  {
    if s == [] then 0 else (if s[0] == k then 1 else 0) + Occurrences(s[1..], k)
  }

  /** In a list without duplicates a value occurs once if at all. */
  lemma {:induction false} OccurrencesInDistinct<K>(s: seq<K>, k: K)
    requires NoDuplicates(s)
    ensures Occurrences(s, k) == if k in s then 1 else 0
  {
    if s != [] {
      assert NoDuplicates(s[1..]) by {
        forall i, j | 0 <= i < j < |s[1..]| ensures s[1..][i] != s[1..][j] {
          assert s[1..][i] == s[i + 1] && s[1..][j] == s[j + 1];
        }
      }
      OccurrencesInDistinct(s[1..], k);
      if s[0] == k {
        assert k !in s[1..] by {
          forall i | 0 <= i < |s[1..]| ensures s[1..][i] != k {
            assert s[1..][i] == s[i + 1];
          }
        }
      } else {
        assert k in s <==> k in s[1..] by {
          assert s == [s[0]] + s[1..];
        }
      }
    }
  }

  /** The records whose key equals k, in order (`s.filter(x => key(x) === k)`). */
  function KeyFilter<T(==), K(==)>(s: seq<T>, key: T -> K, k: K): seq<T>
  {
    Filter(s, x => key(x) == k)
  }

  /** A key filter is empty exactly when no record has the key. */
  lemma KeyFilterEmpty<T, K>(s: seq<T>, key: T -> K, k: K)
    ensures KeyFilter(s, key, k) == [] <==> forall x :: x in s ==> key(x) != k
  {
    FilterEmpty(s, x => key(x) == k);
  }

  /** A key filter keeps every copy of each record with that key. */
  lemma KeyFilterOccurrences<T, K>(s: seq<T>, key: T -> K, k: K)
    ensures forall x :: multiset(KeyFilter(s, key, k))[x] == if key(x) == k then multiset(s)[x] else 0
  {
    FilterOccurrences(s, x => key(x) == k);
  }

  /** The sum of the per-key counts over a list of keys, as one button per key shows them. */
  function KeyCounts<T(==), K(==)>(keys: seq<K>, s: seq<T>, key: T -> K): nat
  {
    if keys == [] then 0 else |KeyFilter(s, key, keys[0])| + KeyCounts(keys[1..], s, key)
  }

  lemma {:induction false} KeyCountsCons<T, K>(keys: seq<K>, x: T, rest: seq<T>, key: T -> K)
    ensures KeyCounts(keys, [x] + rest, key) == Occurrences(keys, key(x)) + KeyCounts(keys, rest, key)
  {
    assert ([x] + rest)[1..] == rest;
    if keys != [] {
      KeyCountsCons(keys[1..], x, rest, key);
    }
  }

  /**
    With distinct keys, the per-key counts never count a record twice, and they
    count every record exactly when every record's key is among the keys.
   */
  lemma {:induction false} KeyCountsBound<T, K>(keys: seq<K>, s: seq<T>, key: T -> K)
    requires NoDuplicates(keys)
    ensures KeyCounts(keys, s, key) <= |s|
    ensures KeyCounts(keys, s, key) == |s| <==> forall x :: x in s ==> key(x) in keys
  {
    if s == [] {
      if keys != [] {
        KeyCountsBound(keys[1..], s, key);
      }
    } else {
      assert s == [s[0]] + s[1..];
      KeyCountsCons(keys, s[0], s[1..], key);
      OccurrencesInDistinct(keys, key(s[0]));
      KeyCountsBound(keys, s[1..], key);
      assert forall x :: x in s <==> x == s[0] || x in s[1..];
    }
  }

  /**
    `Math.round(num / den)` for a positive denominator: the integer nearest to
    num / den, halves rounded up (towards positive infinity), so that
    r - 1/2 <= num / den < r + 1/2.
   */
  function RoundHalfUp(num: int, den: int): (r: int)
    requires den > 0
    ensures den * (2 * r - 1) <= 2 * num < den * (2 * r + 1)
  {
    var q := (2 * num + den) / (2 * den);
    assert 2 * num + den == 2 * den * q + (2 * num + den) % (2 * den);
    assert den * (2 * q - 1) == 2 * den * q - den;
    assert den * (2 * q + 1) == 2 * den * q + den;
    q
  }

  /** At most one integer lies within a half of num / den (halves rounded up). */
  lemma RoundHalfUpUnique(num: int, den: int, r: int)
    requires den > 0
    requires den * (2 * r - 1) <= 2 * num < den * (2 * r + 1)
    ensures RoundHalfUp(num, den) == r
  {
    var q := RoundHalfUp(num, den);
    if q < r {
      assert den * (2 * q + 1) <= den * (2 * r - 1) by {
        assert 2 * q + 1 <= 2 * r - 1;
        MultiplyMonotone(den, 2 * q + 1, 2 * r - 1);
      }
    } else if q > r {
      assert den * (2 * r + 1) <= den * (2 * q - 1) by {
        assert 2 * r + 1 <= 2 * q - 1;
        MultiplyMonotone(den, 2 * r + 1, 2 * q - 1);
      }
    }
  }

  lemma MultiplyMonotone(d: int, a: int, b: int)
    requires d > 0 && a <= b
    ensures d * a <= d * b
  {
    assert d * b - d * a == d * (b - a);
  }

  /** Rounding a larger numerator never gives a smaller result. */
  lemma RoundHalfUpMonotone(a: int, b: int, den: int)
    requires den > 0 && a <= b
    ensures RoundHalfUp(a, den) <= RoundHalfUp(b, den)
  {
    var ra, rb := RoundHalfUp(a, den), RoundHalfUp(b, den);
    if ra > rb {
      assert rb + 1 <= ra;
      MultiplyMonotone(den, 2 * rb + 1, 2 * ra - 1);
    }
  }

  /** An exact quotient rounds to itself. */
  lemma RoundHalfUpExact(k: int, den: int)
    requires den > 0
    ensures RoundHalfUp(den * k, den) == k
  {
    assert den * (2 * k - 1) == 2 * (den * k) - den;
    assert den * (2 * k + 1) == 2 * (den * k) + den;
    RoundHalfUpUnique(den * k, den, k);
  }
}
