/**
 * Orderings, sums and sorted key lists shared by the routes.
 *
 * Python's `sorted(xs, key=k, reverse=True)` compares key tuples
 * lexicographically and is stable.  Every key used in the back end is a tuple
 * of numbers, so a key is modelled as a `seq<real>` and `SortDesc` is a
 * stable insertion sort on it.
 */
module Ordering {

  // ---------------------------------------------------------------------------
  // Lexicographic comparison of key tuples
  // ---------------------------------------------------------------------------

  /** Python's `a > b` on tuples: first differing entry decides, a proper prefix is smaller. */
  predicate LexGreater(a: seq<real>, b: seq<real>)
    decreases |a|
  {
    if a == [] then false
    else if b == [] then true
    else a[0] > b[0] || (a[0] == b[0] && LexGreater(a[1..], b[1..]))
  }

  lemma {:induction false} LexTrichotomy(a: seq<real>, b: seq<real>)
    ensures LexGreater(a, b) || LexGreater(b, a) || a == b
    decreases |a|
  {
    if a != [] && b != [] && a[0] == b[0] {
      LexTrichotomy(a[1..], b[1..]);
      assert a == [a[0]] + a[1..];
      assert b == [b[0]] + b[1..];
    }
  }

  lemma {:induction false} LexAsymmetric(a: seq<real>, b: seq<real>)
    ensures !(LexGreater(a, b) && LexGreater(b, a))
    decreases |a|
  {
    if a != [] && b != [] && a[0] == b[0] {
      LexAsymmetric(a[1..], b[1..]);
    }
  }

  lemma {:induction false} LexTransitive(a: seq<real>, b: seq<real>, c: seq<real>)
    requires LexGreater(a, b) && LexGreater(b, c)
    ensures LexGreater(a, c)
    decreases |a|
  {
    if c != [] && a[0] == b[0] && b[0] == c[0] {
      LexTransitive(a[1..], b[1..], c[1..]);
    }
  }

  /** "Not greater" (that is, `<=` on keys) is transitive. */
  lemma LexNotGreaterTransitive(a: seq<real>, b: seq<real>, c: seq<real>)
    requires !LexGreater(b, a) && !LexGreater(c, b)
    ensures !LexGreater(c, a)
  {
    if LexGreater(c, a) {
      LexTrichotomy(a, b);
      if LexGreater(a, b) {
        LexTransitive(c, a, b);
      }
    }
  }

  // ---------------------------------------------------------------------------
  // Stable descending sort by key (sorted(..., key=key, reverse=True))
  // ---------------------------------------------------------------------------

  /** Keys never increase along `s`. */
  ghost predicate SortedDesc<T>(s: seq<T>, key: T -> seq<real>)
  {
    forall i, j :: 0 <= i < j < |s| ==> !LexGreater(key(s[j]), key(s[i]))
  }

  /** Inserts `x` after every element whose key is strictly greater, before the rest. */
  function Insert<T>(x: T, s: seq<T>, key: T -> seq<real>): (r: seq<T>)
    ensures multiset(r) == multiset(s) + multiset{x}
    ensures |r| == |s| + 1
  {
    if s == [] then [x]
    else if LexGreater(key(s[0]), key(x)) then
      assert s == [s[0]] + s[1..];
      [s[0]] + Insert(x, s[1..], key)
    else [x] + s
  }

  lemma {:induction false} InsertSorted<T>(x: T, s: seq<T>, key: T -> seq<real>)
    requires SortedDesc(s, key)
    ensures SortedDesc(Insert(x, s, key), key)
  {
    if s != [] {
      var r := Insert(x, s, key);
      if LexGreater(key(s[0]), key(x)) {
        var t := Insert(x, s[1..], key);
        InsertSorted(x, s[1..], key);
        assert r == [s[0]] + t;
        forall j | 0 < j < |r|
          ensures !LexGreater(key(r[j]), key(r[0]))
        {
          assert r[j] == t[j - 1];
          assert r[j] in multiset(s[1..]) + multiset{x};
          if r[j] == x {
            LexAsymmetric(key(s[0]), key(x));
          } else {
            assert r[j] in s[1..];
            var k :| 0 <= k < |s[1..]| && s[1..][k] == r[j];
            assert s[k + 1] == r[j];
          }
        }
      } else {
        forall j | 0 <= j < |s|
          ensures !LexGreater(key(s[j]), key(x))
        {
          if j > 0 {
            LexNotGreaterTransitive(key(x), key(s[0]), key(s[j]));
          }
        }
        assert r == [x] + s;
      }
    }
  }

  /** Stable descending sort; the result is a sorted permutation of `s`. */
  function SortDesc<T>(s: seq<T>, key: T -> seq<real>): (r: seq<T>)
    ensures |r| == |s| && multiset(r) == multiset(s)
    ensures SortedDesc(r, key)
  {
    if s == [] then []
    else
      var t := SortDesc(s[1..], key);
      InsertSorted(s[0], t, key);
      assert s == [s[0]] + s[1..];
      Insert(s[0], t, key)
  }

  /** The elements of `s` whose key is `k`, in their order in `s`. */
  function WithKey<T>(s: seq<T>, key: T -> seq<real>, k: seq<real>): seq<T>
  {
    if s == [] then [] else (if key(s[0]) == k then [s[0]] else []) + WithKey(s[1..], key, k)
  }

  lemma {:induction false} InsertWithKey<T>(x: T, s: seq<T>, key: T -> seq<real>, k: seq<real>)
    ensures WithKey(Insert(x, s, key), key, k) == (if key(x) == k then [x] else []) + WithKey(s, key, k)
  {
    var r := Insert(x, s, key);
    var px := if key(x) == k then [x] else [];
    if s != [] && LexGreater(key(s[0]), key(x)) {
      var t := Insert(x, s[1..], key);
      var p0 := if key(s[0]) == k then [s[0]] else [];
      InsertWithKey(x, s[1..], key, k);
      LexAsymmetric(key(x), key(x));
      assert p0 == [] || px == [];
      assert r == [s[0]] + t;
      assert r[1..] == t;
      calc {
        WithKey(r, key, k);
        p0 + WithKey(t, key, k);
        p0 + (px + WithKey(s[1..], key, k));
        px + (p0 + WithKey(s[1..], key, k));
        px + WithKey(s, key, k);
      }
    } else {
      assert r == [x] + s;
      assert r[1..] == s;
    }
  }

  /** Stability: elements with equal keys keep their input order. */
  lemma {:induction false} SortDescStable<T>(s: seq<T>, key: T -> seq<real>, k: seq<real>)
    ensures WithKey(SortDesc(s, key), key, k) == WithKey(s, key, k)
  {
    if s != [] {
      SortDescStable(s[1..], key, k);
      InsertWithKey(s[0], SortDesc(s[1..], key), key, k);
    }
  }

  // ---------------------------------------------------------------------------
  // Integer sums and ascending sorts (list.sort(), sum(costs[:k]))
  // ---------------------------------------------------------------------------

  function Sum(s: seq<int>): int
  {
    if s == [] then 0 else Sum(s[..|s| - 1]) + s[|s| - 1]
  }

  lemma {:induction false} SumConcat(a: seq<int>, b: seq<int>)
    ensures Sum(a + b) == Sum(a) + Sum(b)
    decreases |b|
  {
    if b != [] {
      assert (a + b)[..|a + b| - 1] == a + b[..|b| - 1];
      SumConcat(a, b[..|b| - 1]);
    } else {
      assert a + b == a;
    }
  }

  ghost predicate SortedAsc(s: seq<int>)
  {
    forall i, j :: 0 <= i < j < |s| ==> s[i] <= s[j]
  }

  /** The key that makes SortDesc sort integers in ascending order. */
  function AscendingKey(c: int): seq<real> { [-(c as real)] }

  /** Python's `costs.sort()`. */
  function SortAsc(s: seq<int>): (r: seq<int>)
    ensures |r| == |s| && multiset(r) == multiset(s)
    ensures SortedAsc(r)
  {
    var r := SortDesc(s, AscendingKey);
    assert forall i, j :: 0 <= i < j < |r| ==> !LexGreater(AscendingKey(r[j]), AscendingKey(r[i]));
    r
  }

  lemma MultisetSubsetCard<T>(a: multiset<T>, b: multiset<T>)
    requires a <= b
    ensures |a| <= |b|
  {
    assert b == a + (b - a);
  }

  lemma SumCons(x: int, t: seq<int>)
    ensures Sum([x] + t) == x + Sum(t)
  {
    SumConcat([x], t);
    assert Sum([x]) == Sum([]) + x;
  }

  lemma SumSnoc(t: seq<int>, x: int)
    ensures Sum(t + [x]) == Sum(t) + x
  {
    assert (t + [x])[..|t + [x]| - 1] == t;
  }

  lemma SumRemoveAt(c: seq<int>, i: nat)
    requires i < |c|
    ensures Sum(c) == c[i] + Sum(c[..i] + c[i + 1..])
  {
    assert c == c[..i] + ([c[i]] + c[i + 1..]);
    SumConcat(c[..i], [c[i]] + c[i + 1..]);
    SumCons(c[i], c[i + 1..]);
    SumConcat(c[..i], c[i + 1..]);
  }

  lemma SubMultisetRemove(c: seq<int>, s: seq<int>, i: nat)
    requires multiset(c) <= multiset(s) && 0 < |s| && i < |c| && c[i] == s[0]
    ensures multiset(c[..i] + c[i + 1..]) <= multiset(s[1..])
  {
    var c' := c[..i] + c[i + 1..];
    assert c == c[..i] + [c[i]] + c[i + 1..];
    assert multiset(c) == multiset(c') + multiset{s[0]};
    assert s == [s[0]] + s[1..];
    assert multiset(s) == multiset(s[1..]) + multiset{s[0]};
    forall y ensures multiset(c')[y] <= multiset(s[1..])[y] {
      assert multiset(c)[y] <= multiset(s)[y];
    }
  }

  lemma SubMultisetTail(c: seq<int>, s: seq<int>)
    requires multiset(c) <= multiset(s) && 0 < |s| && s[0] !in multiset(c)
    ensures multiset(c) <= multiset(s[1..]) && |c| < |s|
  {
    assert s == [s[0]] + s[1..];
    assert multiset(s) == multiset(s[1..]) + multiset{s[0]};
    MultisetSubsetCard(multiset(c), multiset(s[1..]));
  }

  /**
   * The sum of the k smallest elements is at most the sum of any k elements:
   * for sorted `s`, `Sum(s[..k])` is below the sum of every sub-multiset of size k.
   */
  lemma {:induction false} PrefixSumIsMinimal(s: seq<int>, c: seq<int>)
    requires SortedAsc(s) && |c| <= |s| && multiset(c) <= multiset(s)
    ensures Sum(s[..|c|]) <= Sum(c)
    decreases |s|
  {
    var k := |c|;
    if k > 0 {
      var x := s[0];
      var tail := s[1..];
      assert SortedAsc(tail);
      assert s[..k] == [x] + tail[..k - 1];
      SumCons(x, tail[..k - 1]);
      if x in multiset(c) {
        var i :| 0 <= i < |c| && c[i] == x;
        SumRemoveAt(c, i);
        SubMultisetRemove(c, s, i);
        PrefixSumIsMinimal(tail, c[..i] + c[i + 1..]);
      } else {
        SubMultisetTail(c, s);
        PrefixSumIsMinimal(tail, c);
        assert tail[..k] == tail[..k - 1] + [tail[k - 1]];
        SumSnoc(tail[..k - 1], tail[k - 1]);
        assert x <= tail[k - 1];
      }
    }
  }

  // ---------------------------------------------------------------------------
  // Sorted lists of integer keys (ORDER BY gw)
  // ---------------------------------------------------------------------------

  ghost predicate StrictlyAscending(s: seq<int>)
  {
    forall i, j :: 0 <= i < j < |s| ==> s[i] < s[j]
  }

  lemma SomeElement(s: set<int>) returns (x: int)
    requires s != {}
    ensures x in s
  {
    if forall y :: y !in s {
      assert false;
    }
    x :| x in s;
  }

  lemma {:induction false} MinExists(s: set<int>)
    requires s != {}
    ensures exists m :: m in s && forall y :: y in s ==> m <= y
    decreases |s|
  {
    var x := SomeElement(s);
    if s == {x} {
      assert forall y :: y in s ==> x <= y;
    } else {
      var rest := s - {x};
      MinExists(rest);
      var m :| m in rest && forall y :: y in rest ==> m <= y;
      var least := if x < m then x else m;
      forall y | y in s
        ensures least <= y
      {
        if y != x {
          assert y in rest;
        }
      }
      assert least in s;
    }
  }

  /** The least element of a non-empty set (unique, so it may be chosen in compiled code). */
  function SetMin(s: set<int>): (m: int)
    requires s != {}
    ensures m in s && forall y :: y in s ==> m <= y
  {
    MinExists(s);
    var m :| m in s && forall y :: y in s ==> m <= y;
    m
  }

  /** The elements of a finite set of integers in ascending order. */
  function SortedSet(s: set<int>): (r: seq<int>)
    ensures |r| == |s|
    ensures forall x :: x in r <==> x in s
    ensures StrictlyAscending(r)
    decreases |s|
  {
    if s == {} then []
    else
      var m := SetMin(s);
      var rest := SortedSet(s - {m});
      assert forall i :: 0 <= i < |rest| ==> m < rest[i] by {
        forall i | 0 <= i < |rest| ensures m < rest[i] {
          assert rest[i] in s - {m};
        }
      }
      [m] + rest
  }

  lemma AppendAssoc<T>(a: seq<T>, b: seq<T>, c: seq<T>)
    ensures (a + b) + c == a + (b + c)
  {
  }
}
