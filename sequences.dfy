/**
 * The Array methods the core relies on: `filter`, `slice(0, n)` and a
 * stable `sort` by a descending integer key (the comparator
 * `(a, b) => key(b) - key(a)`; `Array.prototype.sort` is stable).
 */
module Sequences {

  /** `s.filter(p)`. */
  function Filter<T>(s: seq<T>, p: T -> bool): (r: seq<T>)
    ensures |r| <= |s|
    decreases |s|
  {
    if s == [] then []
    else (if p(s[0]) then [s[0]] else []) + Filter(s[1..], p)
  }

  /** The filter keeps exactly the elements that pass. */
  lemma {:induction false} FilterMembers<T>(s: seq<T>, p: T -> bool)
    ensures forall i :: 0 <= i < |Filter(s, p)| ==> Filter(s, p)[i] in s && p(Filter(s, p)[i])
    ensures forall i :: 0 <= i < |s| && p(s[i]) ==> s[i] in Filter(s, p)
    decreases |s|
  {
    if s != [] {
      FilterMembers(s[1..], p);
      var h := if p(s[0]) then [s[0]] else [];
      var rest := Filter(s[1..], p);
      var r := Filter(s, p);
      assert r == h + rest;
      forall i | 0 <= i < |r| ensures r[i] in s && p(r[i]) {
        if i >= |h| {
          assert r[i] == rest[i - |h|];
        }
      }
      forall i | 0 <= i < |s| && p(s[i]) ensures s[i] in r {
        if i > 0 {
          assert s[i] == s[1..][i - 1];
        }
      }
    }
  }

  lemma FilterCons<T>(s: seq<T>, p: T -> bool)
    requires s != []
    ensures Filter(s, p) == (if p(s[0]) then [s[0]] else []) + Filter(s[1..], p)
  {
  }

  /** When every element passes, the filter keeps the sequence as it is. */
  lemma {:induction false} FilterAllPass<T>(s: seq<T>, p: T -> bool)
    requires forall i :: 0 <= i < |s| ==> p(s[i])
    ensures Filter(s, p) == s
    decreases |s|
  {
    if s != [] {
      assert forall i :: 0 <= i < |s[1..]| ==> s[1..][i] == s[i + 1];
      FilterAllPass(s[1..], p);
      FilterCons(s, p);
      assert s == [s[0]] + s[1..];
    }
  }

  lemma {:induction false} FilterAppend<T>(a: seq<T>, b: seq<T>, p: T -> bool)
    ensures Filter(a + b, p) == Filter(a, p) + Filter(b, p)
    decreases |a|
  {
    if a == [] {
      assert a + b == b;
    } else {
      var h := if p(a[0]) then [a[0]] else [];
      assert (a + b)[0] == a[0] && (a + b)[1..] == a[1..] + b;
      FilterCons(a + b, p);
      FilterCons(a, p);
      FilterAppend(a[1..], b, p);
      calc {
        Filter(a + b, p);
        h + Filter(a[1..] + b, p);
        h + (Filter(a[1..], p) + Filter(b, p));
        (h + Filter(a[1..], p)) + Filter(b, p);
        Filter(a, p) + Filter(b, p);
      }
    }
  }

  /** Every position one further on. */
  function Shift(t: seq<nat>): (u: seq<nat>)
    ensures |u| == |t|
    ensures forall k :: 0 <= k < |t| ==> u[k] == t[k] + 1
  {
    seq(|t|, k requires 0 <= k < |t| => t[k] + 1)
  }

  lemma ShiftIn(t: seq<nat>, i: nat)
    ensures i + 1 in Shift(t) <==> i in t
    ensures 0 !in Shift(t)
  {
    var u := Shift(t);
    if i in t {
      var m :| 0 <= m < |t| && t[m] == i;
      assert u[m] == i + 1;
    }
    if i + 1 in u {
      var m :| 0 <= m < |u| && u[m] == i + 1;
      assert t[m] == i;
    }
  }

  /** `r` lists the elements of `s` at the positions `idx`. */
  ghost predicate At<T>(s: seq<T>, r: seq<T>, idx: seq<nat>) {
    |idx| == |r| && forall k :: 0 <= k < |idx| ==> idx[k] < |s| && r[k] == s[idx[k]]
  }

  ghost predicate Increasing(idx: seq<nat>) {
    forall k, l :: 0 <= k < l < |idx| ==> idx[k] < idx[l]
  }

  /** `idx` holds exactly the positions of `s` whose element passes. */
  ghost predicate PassingPositions<T>(s: seq<T>, p: T -> bool, idx: seq<nat>) {
    forall i :: 0 <= i < |s| ==> (p(s[i]) <==> i in idx)
  }

  function Head(pass: bool): seq<nat> {
    if pass then [0] else []
  }

  lemma AtStep<T>(s: seq<T>, p: T -> bool, tail: seq<nat>)
    requires s != [] && At(s[1..], Filter(s[1..], p), tail)
    ensures At(s, Filter(s, p), Head(p(s[0])) + Shift(tail))
  {
    var u, rest := Shift(tail), Filter(s[1..], p);
    FilterCons(s, p);
    if p(s[0]) {
      var idx, r := [0] + u, [s[0]] + rest;
      forall k | 0 <= k < |idx| ensures idx[k] < |s| && r[k] == s[idx[k]] {
        if k > 0 {
          assert idx[k] == tail[k - 1] + 1 && r[k] == rest[k - 1] == s[1..][tail[k - 1]];
        }
      }
    } else {
      forall k | 0 <= k < |u| ensures u[k] < |s| && rest[k] == s[u[k]] {
        assert rest[k] == s[1..][tail[k]];
      }
    }
  }

  lemma IncreasingStep(pass: bool, tail: seq<nat>)
    requires Increasing(tail)
    ensures Increasing(Head(pass) + Shift(tail))
  {
    var h, u := Head(pass), Shift(tail);
    var idx := h + u;
    forall k, l | 0 <= k < l < |idx| ensures idx[k] < idx[l] {
      assert idx[l] == u[l - |h|];
      if k >= |h| {
        assert idx[k] == u[k - |h|];
      }
    }
  }

  lemma PassingStep<T>(s: seq<T>, p: T -> bool, tail: seq<nat>)
    requires s != [] && PassingPositions(s[1..], p, tail)
    ensures PassingPositions(s, p, Head(p(s[0])) + Shift(tail))
  {
    var h, u := Head(p(s[0])), Shift(tail);
    var idx := h + u;
    forall i | 0 <= i < |s| ensures p(s[i]) <==> i in idx {
      assert (i in idx) == (i in h || i in u);
      if i > 0 {
        ShiftIn(tail, i - 1);
        assert s[i] == s[1..][i - 1];
      } else {
        ShiftIn(tail, 0);
      }
    }
  }

  /**
   * The filter picks, in increasing order, exactly the positions whose
   * element passes: its result is the subsequence of those elements.
   */
  lemma {:induction false} FilterIndices<T>(s: seq<T>, p: T -> bool) returns (idx: seq<nat>)
    ensures At(s, Filter(s, p), idx) && Increasing(idx) && PassingPositions(s, p, idx)
    decreases |s|
  {
    if s == [] {
      idx := [];
    } else {
      var tail := FilterIndices(s[1..], p);
      idx := Head(p(s[0])) + Shift(tail);
      AtStep(s, p, tail);
      IncreasingStep(p(s[0]), tail);
      PassingStep(s, p, tail);
    }
  }

  predicate NoDup<T(==)>(s: seq<T>) {
    forall i, j :: 0 <= i < j < |s| ==> s[i] != s[j]
  }

  lemma NoDupTail<T>(s: seq<T>)
    requires NoDup(s) && s != []
    ensures NoDup(s[1..]) && s[0] !in s[1..]
  {
    forall i, j | 0 <= i < j < |s[1..]| ensures s[1..][i] != s[1..][j] {
      assert s[1..][i] == s[i + 1] && s[1..][j] == s[j + 1];
    }
    forall j | 0 <= j < |s[1..]| ensures s[1..][j] != s[0] {
      assert s[1..][j] == s[j + 1];
    }
  }

  /** Without duplicates, every element occurs at most once. */
  lemma {:induction false} NoDupCounts<T>(s: seq<T>)
    requires NoDup(s)
    ensures forall x :: multiset(s)[x] <= 1
    decreases |s|
  {
    if s != [] {
      NoDupTail(s);
      NoDupCounts(s[1..]);
      assert s == [s[0]] + s[1..];
      assert multiset(s) == multiset{s[0]} + multiset(s[1..]);
    }
  }

  lemma CountsNoDup<T>(s: seq<T>)
    requires forall x :: multiset(s)[x] <= 1
    ensures NoDup(s)
  {
    forall i, j | 0 <= i < j < |s| ensures s[i] != s[j] {
      assert s == s[..j] + s[j..];
      assert s[..j][i] == s[i] && s[j..][0] == s[j];
      assert s[i] in multiset(s[..j]) && s[j] in multiset(s[j..]);
      assert multiset(s)[s[j]] == multiset(s[..j])[s[j]] + multiset(s[j..])[s[j]];
    }
  }

  /** A rearrangement of a duplicate-free sequence is duplicate-free. */
  lemma PermutationNoDup<T>(a: seq<T>, b: seq<T>)
    requires multiset(a) == multiset(b) && NoDup(a)
    ensures NoDup(b)
  {
    NoDupCounts(a);
    CountsNoDup(b);
  }

  /** Filtering a duplicate-free sequence leaves it duplicate-free. */
  lemma {:induction false} FilterNoDup<T>(s: seq<T>, p: T -> bool)
    requires NoDup(s)
    ensures NoDup(Filter(s, p))
    decreases |s|
  {
    if s != [] {
      NoDupTail(s);
      FilterNoDup(s[1..], p);
      FilterMembers(s[1..], p);
      FilterCons(s, p);
      var rest := Filter(s[1..], p);
      if p(s[0]) {
        var r := [s[0]] + rest;
        assert s[0] !in rest;
        forall i, j | 0 <= i < j < |r| ensures r[i] != r[j] {
          assert r[j] == rest[j - 1];
          if i > 0 {
            assert r[i] == rest[i - 1];
          }
        }
      }
    }
  }

  /** `s.map(f)`. */
  function Map<A, B>(s: seq<A>, f: A -> B): (r: seq<B>)
    ensures |r| == |s|
    ensures forall i :: 0 <= i < |s| ==> r[i] == f(s[i])
  {
    seq(|s|, i requires 0 <= i < |s| => f(s[i]))
  }

  lemma MapCons<A, B>(x: A, xs: seq<A>, f: A -> B)
    ensures Map([x] + xs, f) == [f(x)] + Map(xs, f)
  {
    var l, r := Map([x] + xs, f), [f(x)] + Map(xs, f);
    forall i | 0 <= i < |l| ensures l[i] == r[i] {
      if i > 0 {
        assert ([x] + xs)[i] == xs[i - 1];
      }
    }
  }

  /** `s.slice(0, n)`. */
  function Take<T>(s: seq<T>, n: nat): (r: seq<T>)
    ensures |r| == if n < |s| then n else |s|
    ensures forall i :: 0 <= i < |r| ==> r[i] == s[i]
  {
    if n < |s| then s[..n] else s
  }

  /** A prefix holds no element more often than the whole. */
  lemma TakeSubMultiset<T>(s: seq<T>, n: nat)
    ensures multiset(Take(s, n)) <= multiset(s)
  {
    if n < |s| {
      assert s == s[..n] + s[n..];
    }
  }

  ghost predicate SortedDesc<T>(s: seq<T>, key: T -> int) {
    forall i, j :: 0 <= i < j < |s| ==> key(s[i]) >= key(s[j])
  }

  /** Places `x` in front of the first element whose key is not larger than its own. */
  function Insert<T>(x: T, t: seq<T>, key: T -> int): (r: seq<T>)
    ensures multiset(r) == multiset(t) + multiset{x}
    decreases |t|
  {
    if t == [] || key(x) >= key(t[0]) then [x] + t
    else
      assert t == [t[0]] + t[1..];
      [t[0]] + Insert(x, t[1..], key)
  }

  /** Stable sort, largest key first. */
  function SortDesc<T>(s: seq<T>, key: T -> int): (r: seq<T>)
    ensures multiset(r) == multiset(s)
    decreases |s|
  {
    if s == [] then []
    else
      assert s == [s[0]] + s[1..];
      Insert(s[0], SortDesc(s[1..], key), key)
  }

  /** The first element after an insertion is the one inserted or the old first one. */
  lemma InsertHead<T>(x: T, t: seq<T>, key: T -> int)
    ensures |Insert(x, t, key)| == |t| + 1
    ensures Insert(x, t, key)[0] == x || (t != [] && Insert(x, t, key)[0] == t[0])
  {
    assert |multiset(Insert(x, t, key))| == |multiset(t)| + 1;
  }

  lemma {:induction false} InsertSorted<T>(x: T, t: seq<T>, key: T -> int)
    requires SortedDesc(t, key)
    ensures SortedDesc(Insert(x, t, key), key)
    decreases |t|
  {
    var r := Insert(x, t, key);
    if t == [] || key(x) >= key(t[0]) {
      assert r == [x] + t;
      forall i, j | 0 <= i < j < |r| ensures key(r[i]) >= key(r[j]) {
        if i == 0 {
          assert key(t[0]) >= key(t[j - 1]);
        }
      }
    } else {
      var rest := Insert(x, t[1..], key);
      assert r == [t[0]] + rest;
      assert SortedDesc(t[1..], key) by {
        forall i, j | 0 <= i < j < |t[1..]| ensures key(t[1..][i]) >= key(t[1..][j]) {
          assert t[1..][i] == t[i + 1] && t[1..][j] == t[j + 1];
        }
      }
      InsertSorted(x, t[1..], key);
      InsertHead(x, t[1..], key);
      assert key(t[0]) >= key(rest[0]) by {
        if rest[0] != x {
          assert rest[0] == t[1];
        }
      }
      forall i, j | 0 <= i < j < |r| ensures key(r[i]) >= key(r[j]) {
        if i == 0 {
          assert r[j] == rest[j - 1];
          if j > 1 {
            assert key(rest[0]) >= key(rest[j - 1]);
          }
        } else {
          assert r[i] == rest[i - 1] && r[j] == rest[j - 1];
        }
      }
    }
  }

  /** The sort's result is ordered by non-increasing key. */
  lemma {:induction false} SortDescSorted<T>(s: seq<T>, key: T -> int)
    ensures SortedDesc(SortDesc(s, key), key)
    decreases |s|
  {
    if s != [] {
      SortDescSorted(s[1..], key);
      InsertSorted(s[0], SortDesc(s[1..], key), key);
    }
  }

  /** The sort neither loses nor invents elements. */
  lemma SortDescMembers<T>(s: seq<T>, key: T -> int)
    ensures forall i :: 0 <= i < |s| ==> s[i] in SortDesc(s, key)
    ensures forall i :: 0 <= i < |SortDesc(s, key)| ==> SortDesc(s, key)[i] in s
  {
    var r := SortDesc(s, key);
    forall i | 0 <= i < |s| ensures s[i] in r {
      assert s[i] in multiset(s);
    }
    forall i | 0 <= i < |r| ensures r[i] in s {
      assert r[i] in multiset(r);
    }
  }

  /** The elements of `s` whose key is `k`, in order. */
  function WithKey<T>(s: seq<T>, key: T -> int, k: int): seq<T>
    decreases |s|
  {
    if s == [] then []
    else (if key(s[0]) == k then [s[0]] else []) + WithKey(s[1..], key, k)
  }

  lemma WithKeyCons<T>(s: seq<T>, key: T -> int, k: int)
    requires s != []
    ensures WithKey(s, key, k) == (if key(s[0]) == k then [s[0]] else []) + WithKey(s[1..], key, k)
  {
  }

  lemma {:induction false} InsertStable<T>(x: T, t: seq<T>, key: T -> int, k: int)
    ensures WithKey(Insert(x, t, key), key, k)
         == (if key(x) == k then [x] else []) + WithKey(t, key, k)
    decreases |t|
  {
    var r := Insert(x, t, key);
    if t != [] && key(x) < key(t[0]) {
      assert r == [t[0]] + Insert(x, t[1..], key);
      WithKeyCons(r, key, k);
      assert r[0] == t[0] && r[1..] == Insert(x, t[1..], key);
      InsertStable(x, t[1..], key, k);
      WithKeyCons(t, key, k);
    } else {
      assert r == [x] + t;
      WithKeyCons(r, key, k);
      assert r[0] == x && r[1..] == t;
    }
  }

  /** Stability: elements with equal keys keep their original relative order. */
  lemma {:induction false} SortDescStable<T>(s: seq<T>, key: T -> int, k: int)
    ensures WithKey(SortDesc(s, key), key, k) == WithKey(s, key, k)
    decreases |s|
  {
    if s != [] {
      SortDescStable(s[1..], key, k);
      InsertStable(s[0], SortDesc(s[1..], key), key, k);
    }
  }

  /** The equal-key elements of a prefix are a prefix of those of the whole. */
  lemma {:induction false} WithKeyTake<T>(s: seq<T>, key: T -> int, k: int, n: nat)
    ensures WithKey(Take(s, n), key, k) <= WithKey(s, key, k)
    decreases |s|
  {
    if 0 < n < |s| {
      var t := Take(s, n);
      assert t[0] == s[0] && t[1..] == Take(s[1..], n - 1);
      WithKeyTake(s[1..], key, k, n - 1);
      WithKeyCons(t, key, k);
      WithKeyCons(s, key, k);
    }
  }
}
