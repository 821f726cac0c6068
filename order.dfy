/**
 * Filtering, ordering and summing sequences of records: the table operations the
 * aggregation steps use (pandas boolean masks, `sort_values`, `sorted`, `sum`).
 */
module Order {
  import opened Wrappers

  /**
   * The order of sort keys: defined keys ascending, unknown keys after every defined one
   * (where `sort_values` puts NaN).
   */
  predicate KeyLe(a: Option<real>, b: Option<real>) {
    b.None? || (a.Some? && a.value <= b.value)
  }

  ghost predicate SortedOn<T>(s: seq<T>, key: T -> Option<real>) {
    forall i, j :: 0 <= i < j < |s| ==> KeyLe(key(s[i]), key(s[j]))
  }

  /** Puts `x` before the first element whose key is not below its own. */
  function Insert<T>(x: T, s: seq<T>, key: T -> Option<real>): (r: seq<T>)
    requires SortedOn(s, key)
    ensures SortedOn(r, key)
    ensures multiset(r) == multiset(s) + multiset{x}
    ensures |r| == |s| + 1
  {
    if s == [] then [x]
    else if KeyLe(key(x), key(s[0])) then [x] + s
    else
      var rest := Insert(x, s[1..], key);
      assert s == [s[0]] + s[1..];
      assert forall k :: 0 <= k < |rest| ==> KeyLe(key(s[0]), key(rest[k])) by {
        forall k | 0 <= k < |rest| ensures KeyLe(key(s[0]), key(rest[k])) {
          assert rest[k] in multiset(rest);
          assert rest[k] == x || rest[k] in multiset(s[1..]);
        }
      }
      [s[0]] + rest
  }

  /**
   * Sorting by a key: the result is ordered by the key and holds exactly the input's
   * elements, as often as the input does.
   */
  function SortOn<T>(s: seq<T>, key: T -> Option<real>): (r: seq<T>)
    ensures SortedOn(r, key)
    ensures multiset(r) == multiset(s)
    ensures |r| == |s|
  {
    if s == [] then []
    else
      assert s == [s[0]] + s[1..];
      Insert(s[0], SortOn(s[1..], key), key)
  }

  /** The elements of `s` that satisfy `p`, in their order in `s` (a pandas boolean mask). */
  function Filter<T(!new)>(s: seq<T>, p: T -> bool): (r: seq<T>)
    ensures |r| <= |s|
    ensures forall i :: 0 <= i < |r| ==> p(r[i])
    ensures forall x :: x in r <==> x in s && p(x)
  {
    if s == [] then []
    else
      assert s == [s[0]] + s[1..];
      (if p(s[0]) then [s[0]] else []) + Filter(s[1..], p)
  }

  /**
   * The sum of the defined values of `f` over `s`; an unknown value adds nothing, and an
   * empty or all-unknown sequence sums to 0 (`sum()` skipping NaN).
   */
  function SumOf<T>(s: seq<T>, f: T -> Option<real>): real
  {
    if s == [] then 0.0 else f(s[0]).GetOr(0.0) + SumOf(s[1..], f)
  }

  /** True when `f` is defined somewhere on `s`, which is when `sum(min_count=1)` is not NaN. */
  predicate AnyDefined<T>(s: seq<T>, f: T -> Option<real>) {
    exists i :: 0 <= i < |s| && f(s[i]).Some?
  }

  lemma {:induction false} SumOfAllUnknown<T>(s: seq<T>, f: T -> Option<real>)
    requires !AnyDefined(s, f)
    ensures SumOf(s, f) == 0.0
  {
    if s != [] {
      forall i | 0 <= i < |s[1..]| ensures f(s[1..][i]).None? {
        assert s[1..][i] == s[i + 1];
      }
      SumOfAllUnknown(s[1..], f);
    }
  }

  lemma {:induction false} SumOfAppend<T>(a: seq<T>, b: seq<T>, f: T -> Option<real>)
    ensures SumOf(a + b, f) == SumOf(a, f) + SumOf(b, f)
  {
    if a == [] {
      assert a + b == b;
    } else {
      assert (a + b)[1..] == a[1..] + b;
      SumOfAppend(a[1..], b, f);
    }
  }

  /** Taking one element out of the middle takes its value out of the sum. */
  lemma {:induction false} SumOfRemove<T>(s: seq<T>, i: nat, f: T -> Option<real>)
    requires i < |s|
    ensures SumOf(s, f) == f(s[i]).GetOr(0.0) + SumOf(s[..i] + s[i + 1..], f)
  {
    var front, back := s[..i], s[i + 1..];
    assert s == front + ([s[i]] + back);
    SumOfAppend(front, [s[i]] + back, f);
    assert ([s[i]] + back)[1..] == back;
    assert SumOf([s[i]] + back, f) == f(s[i]).GetOr(0.0) + SumOf(back, f);
    SumOfAppend(front, back, f);
  }

  /** Sums do not depend on the order of the rows. */
  lemma {:induction false} SumOfPermutation<T>(s: seq<T>, t: seq<T>, f: T -> Option<real>)
    requires multiset(s) == multiset(t)
    ensures SumOf(s, f) == SumOf(t, f)
    decreases |s|
  {
    if s == [] {
      assert |t| == |multiset(t)| == 0;
    } else {
      var x := s[0];
      assert x in multiset(t) by { assert x in multiset(s); }
      var i :| 0 <= i < |t| && t[i] == x;
      var t' := t[..i] + t[i + 1..];
      RemoveMatching(s, t, i);
      SumOfRemove(t, i, f);
      SumOfPermutation(s[1..], t', f);
    }
  }

  /** Taking the first element of `s` and a matching element of `t` out of equal bags leaves equal bags. */
  lemma RemoveMatching<T>(s: seq<T>, t: seq<T>, i: nat)
    requires multiset(s) == multiset(t) && s != [] && i < |t| && t[i] == s[0]
    ensures multiset(s[1..]) == multiset(t[..i] + t[i + 1..])
  {
    var x := s[0];
    assert t == t[..i] + [x] + t[i + 1..];
    assert s == [x] + s[1..];
    assert multiset(t) == multiset(t[..i]) + multiset{x} + multiset(t[i + 1..]);
    assert multiset(t[..i] + t[i + 1..]) == multiset(t[..i]) + multiset(t[i + 1..]);
    assert multiset(t[..i] + t[i + 1..]) == multiset(t) - multiset{x};
    assert multiset(s) == multiset{x} + multiset(s[1..]);
    assert multiset(s[1..]) == multiset(s) - multiset{x};
  }

  /** A mask keeps each passing element as often as it occurs and drops every other. */
  lemma {:induction false} FilterMultiset<T(!new)>(s: seq<T>, p: T -> bool, x: T)
    ensures multiset(Filter(s, p))[x] == if p(x) then multiset(s)[x] else 0
  {
    if s != [] {
      assert s == [s[0]] + s[1..];
      FilterMultiset(s[1..], p, x);
    }
  }

  /**
   * Summing over the rows a mask keeps is summing over all rows with the dropped ones
   * counted as unknown (`g` is `f` on the kept rows and unknown elsewhere).
   */
  lemma {:induction false} SumOfFilter<T(!new)>(s: seq<T>, p: T -> bool, f: T -> Option<real>, g: T -> Option<real>)
    requires forall x :: g(x) == if p(x) then f(x) else None
    ensures SumOf(Filter(s, p), f) == SumOf(s, g)
  {
    if s != [] {
      assert s == [s[0]] + s[1..];
      SumOfFilter(s[1..], p, f, g);
      SumOfAppend(if p(s[0]) then [s[0]] else [], Filter(s[1..], p), f);
    }
  }

  /** Filtering a sequence grown by one element grows the filtered sequence by that element when it passes. */
  lemma {:induction false} FilterAppend<T(!new)>(s: seq<T>, x: T, p: T -> bool)
    ensures Filter(s + [x], p) == Filter(s, p) + (if p(x) then [x] else [])
  {
    if s == [] {
      assert [] + [x] == [x];
    } else {
      var head := if p(s[0]) then [s[0]] else [];
      var tail := if p(x) then [x] else [];
      assert (s + [x])[0] == s[0];
      assert (s + [x])[1..] == s[1..] + [x];
      assert Filter(s + [x], p) == head + Filter(s[1..] + [x], p);
      FilterAppend(s[1..], x, p);
      assert Filter(s, p) == head + Filter(s[1..], p);
      assert head + (Filter(s[1..], p) + tail) == (head + Filter(s[1..], p)) + tail;
    }
  }

  function Min(a: int, b: int): int {
    if a <= b then a else b
  }

  /**
   * `sorted(s, key=key)[:k]`: the first `k` elements in key order, or all of them when
   * there are fewer. They are drawn from `s`, in key order, and no element left out has a
   * smaller key than one kept.
   */
  function Smallest<T>(s: seq<T>, k: nat, key: T -> Option<real>): (r: seq<T>)
    ensures |r| == Min(k, |s|)
    ensures multiset(r) <= multiset(s)
    ensures SortedOn(r, key)
    ensures forall y, z :: y in r && z in multiset(s) - multiset(r) ==> KeyLe(key(y), key(z))
  {
    SmallestDrawn(s, k, key);
    SmallestSorted(s, k, key);
    SmallestFirst(s, k, key);
    SortOn(s, key)[..Min(k, |s|)]
  }

  lemma SmallestDrawn<T>(s: seq<T>, k: nat, key: T -> Option<real>)
    ensures var n := Min(k, |s|);
      n <= |SortOn(s, key)| && multiset(SortOn(s, key)[..n]) + multiset(SortOn(s, key)[n..]) == multiset(s)
  {
    var sorted, n := SortOn(s, key), Min(k, |s|);
    assert sorted == sorted[..n] + sorted[n..];
  }

  lemma SmallestSorted<T>(s: seq<T>, k: nat, key: T -> Option<real>)
    ensures SortedOn(SortOn(s, key)[..Min(k, |s|)], key)
  {
    var sorted, n := SortOn(s, key), Min(k, |s|);
    forall i, j | 0 <= i < j < n ensures KeyLe(key(sorted[..n][i]), key(sorted[..n][j])) {
      assert sorted[..n][i] == sorted[i] && sorted[..n][j] == sorted[j];
    }
  }

  lemma SmallestFirst<T>(s: seq<T>, k: nat, key: T -> Option<real>)
    ensures var n := Min(k, |s|); var r := SortOn(s, key)[..n];
      forall y, z :: y in r && z in multiset(s) - multiset(r) ==> KeyLe(key(y), key(z))
  {
    var sorted, n := SortOn(s, key), Min(k, |s|);
    var r, rest := sorted[..n], sorted[n..];
    SmallestDrawn(s, k, key);
    assert multiset(s) - multiset(r) == multiset(rest);
    PrefixBeforeRest(sorted, n, key);
  }

  /** In a sorted sequence, no element of a prefix has a larger key than one after it. */
  lemma PrefixBeforeRest<T>(sorted: seq<T>, n: nat, key: T -> Option<real>)
    requires SortedOn(sorted, key) && n <= |sorted|
    ensures forall y, z :: y in sorted[..n] && z in multiset(sorted[n..]) ==> KeyLe(key(y), key(z))
  {
    forall y, z | y in sorted[..n] && z in multiset(sorted[n..]) ensures KeyLe(key(y), key(z)) {
      assert z in sorted[n..];
      var i :| 0 <= i < n && sorted[..n][i] == y;
      var j :| 0 <= j < |sorted| - n && sorted[n..][j] == z;
      assert sorted[i] == y && sorted[n + j] == z;
    }
  }
}
