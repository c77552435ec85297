/** `Array.prototype.sort` with a comparator, which ECMAScript requires to be stable.
    `before(x, y)` holds when the comparator puts `x` strictly before `y` (returns a
    negative number); for a consistent comparator the stable result is unique, and the
    model computes it by stable insertion. */
module Sorting {
  import opened Wrappers

  /** `x` inserted in front of the first element it must precede. */
  function Insert<T>(x: T, s: seq<T>, before: (T, T) -> bool): (r: seq<T>)
    ensures |r| == |s| + 1
    ensures multiset(r) == multiset(s) + multiset{x}
    decreases |s|
  {
    if s == [] then [x]
    else if before(x, s[0]) then [x] + s
    else assert s == [s[0]] + s[1..]; [s[0]] + Insert(x, s[1..], before)
  }

  /** The stable sort of `s`. */
  function SortBy<T>(s: seq<T>, before: (T, T) -> bool): (r: seq<T>)
    ensures |r| == |s|
    ensures multiset(r) == multiset(s)
    decreases |s|
  {
    if s == [] then []
    else
      assert s == s[..|s| - 1] + [s[|s| - 1]];
      Insert(s[|s| - 1], SortBy(s[..|s| - 1], before), before)
  }

  /** No element is preceded by one it must come before. */
  predicate SortedBy<T>(s: seq<T>, before: (T, T) -> bool) {
    forall i, j | 0 <= i < j < |s| :: !before(s[j], s[i])
  }

  /** What a comparator must satisfy for the sorted result to be ordered. */
  ghost predicate StrictOrder<T(!new)>(before: (T, T) -> bool) {
    (forall a, b :: before(a, b) ==> !before(b, a))
    && (forall a, b, c :: before(a, b) && before(b, c) ==> before(a, c))
  }

  /** Comparing by an integer key, largest first (`(a, b) => key(b) - key(a)`). */
  function KeyDesc<T>(key: T -> int): (T, T) -> bool {
    (a: T, b: T) => key(a) > key(b)
  }

  lemma KeyDescIsStrictOrder<T(!new)>(key: T -> int)
    ensures StrictOrder(KeyDesc(key))
  {
  }

  lemma {:induction false} InsertSorted<T(!new)>(x: T, s: seq<T>, before: (T, T) -> bool)
    requires StrictOrder(before) && SortedBy(s, before)
    ensures SortedBy(Insert(x, s, before), before)
    decreases |s|
  {
    if s != [] && !before(x, s[0]) {
      InsertSorted(x, s[1..], before);
      var r := Insert(x, s[1..], before);
      forall k | 0 <= k < |r| ensures !before(r[k], s[0]) {
        if r[k] != x {
          assert r[k] in multiset(r);
          assert r[k] in multiset(s[1..]);
          var m :| 0 <= m < |s[1..]| && s[1..][m] == r[k];
          assert s[m + 1] == r[k];
        }
      }
      var full := [s[0]] + r;
      forall i, j | 0 <= i < j < |full| ensures !before(full[j], full[i]) {
        if i > 0 { assert full[i] == r[i - 1] && full[j] == r[j - 1]; }
        else { assert full[j] == r[j - 1]; }
      }
    } else if s != [] {
      var full := [x] + s;
      forall i, j | 0 <= i < j < |full| ensures !before(full[j], full[i]) {
        if i > 0 {
          assert full[i] == s[i - 1] && full[j] == s[j - 1];
        } else {
          assert full[j] == s[j - 1];
          if j - 1 > 0 { assert !before(s[j - 1], s[0]); }
        }
      }
    }
  }

  /** The sorted result is ordered. */
  lemma {:induction false} SortBySorted<T(!new)>(s: seq<T>, before: (T, T) -> bool)
    requires StrictOrder(before)
    ensures SortedBy(SortBy(s, before), before)
    decreases |s|
  {
    if s != [] {
      SortBySorted(s[..|s| - 1], before);
      InsertSorted(s[|s| - 1], SortBy(s[..|s| - 1], before), before);
    }
  }

  /** Sorting keeps exactly the elements it was given. */
  lemma SortByMembers<T>(s: seq<T>, before: (T, T) -> bool, x: T)
    ensures x in SortBy(s, before) <==> x in s
  {
    assert x in multiset(SortBy(s, before)) <==> x in multiset(s);
  }

  /** An element that precedes none of a list goes at its end. */
  lemma {:induction false} InsertLast<T>(x: T, s: seq<T>, before: (T, T) -> bool)
    requires forall i | 0 <= i < |s| :: !before(x, s[i])
    ensures Insert(x, s, before) == s + [x]
    decreases |s|
  {
    if s != [] {
      assert forall i | 0 <= i < |s[1..]| :: s[1..][i] == s[i + 1];
      InsertLast(x, s[1..], before);
    }
  }

  /** The front of a sorted list is sorted, and its last element precedes none of it. */
  lemma SortedFront<T>(s: seq<T>, init: seq<T>, before: (T, T) -> bool)
    requires SortedBy(s, before) && s != [] && init == s[..|s| - 1]
    ensures SortedBy(init, before)
    ensures forall i | 0 <= i < |init| :: !before(s[|s| - 1], init[i])
  {
    forall i, j | 0 <= i < j < |init| ensures !before(init[j], init[i]) {
      assert init[i] == s[i] && init[j] == s[j];
    }
    forall i | 0 <= i < |init| ensures !before(s[|s| - 1], init[i]) {
      assert init[i] == s[i];
    }
  }

  /** Sorting a sorted list changes nothing. */
  lemma {:induction false} SortBySortedUnchanged<T>(s: seq<T>, before: (T, T) -> bool)
    requires SortedBy(s, before)
    ensures SortBy(s, before) == s
    decreases |s|
  {
    if s != [] {
      var init, x := s[..|s| - 1], s[|s| - 1];
      SortedFront(s, init, before);
      SortBySortedUnchanged(init, before);
      InsertLast(x, init, before);
      assert init + [x] == s;
    }
  }

  /** No element occurs twice. */
  predicate AllDistinct<T(==)>(s: seq<T>) {
    forall i, j | 0 <= i < j < |s| :: s[i] != s[j]
  }

  lemma {:induction false} MultisetDistinct<T>(s: seq<T>, t: seq<T>)
    requires multiset(s) == multiset(t) && AllDistinct(s)
    ensures AllDistinct(t)
  {
    forall i, j | 0 <= i < j < |t| ensures t[i] != t[j] {
      if t[i] == t[j] {
        TwiceCounted(t, i, j);
        DistinctCountsOne(s, t[i]);
      }
    }
  }

  lemma {:induction false} DistinctCountsOne<T>(s: seq<T>, x: T)
    requires AllDistinct(s)
    ensures multiset(s)[x] <= 1
    decreases |s|
  {
    if s != [] {
      assert s == [s[0]] + s[1..];
      assert AllDistinct(s[1..]) by {
        forall i, j | 0 <= i < j < |s[1..]| ensures s[1..][i] != s[1..][j] {
          assert s[1..][i] == s[i + 1] && s[1..][j] == s[j + 1];
        }
      }
      DistinctCountsOne(s[1..], x);
      if s[0] == x {
        forall k | 0 <= k < |s[1..]| ensures s[1..][k] != x {
          assert s[1..][k] == s[k + 1];
        }
        assert multiset(s[1..])[x] == 0;
      }
    }
  }

  /** An element at two positions is counted at least twice. */
  lemma TwiceCounted<T>(t: seq<T>, i: int, j: int)
    requires 0 <= i < j < |t| && t[i] == t[j]
    ensures multiset(t)[t[i]] >= 2
  {
    var x := t[i];
    assert t == t[..i] + [t[i]] + t[i + 1..j] + [t[j]] + t[j + 1..];
    assert multiset(t) == multiset(t[..i]) + multiset{x} + multiset(t[i + 1..j]) + multiset{x} + multiset(t[j + 1..]);
  }

  /** No two elements share a key. */
  predicate KeysDistinct<T, K(==)>(s: seq<T>, key: T -> K) {
    forall i, j | 0 <= i < j < |s| :: key(s[i]) != key(s[j])
  }

  /** Distinct keys mean distinct elements. */
  lemma KeysDistinctAllDistinct<T, K>(s: seq<T>, key: T -> K)
    requires KeysDistinct(s, key)
    ensures AllDistinct(s)
  {
    forall i, j | 0 <= i < j < |s| ensures s[i] != s[j] {
      assert key(s[i]) != key(s[j]);
    }
  }

  /** In a permutation of `a + b`, an element of the duplicate-free `b` that is not in `a`
      occurs at most once. */
  lemma OnceInPermutation<T>(out: seq<T>, a: seq<T>, b: seq<T>, x: T)
    requires multiset(out) == multiset(a + b) && AllDistinct(b) && x !in a
    ensures multiset(out)[x] <= 1
  {
    DistinctCountsOne(b, x);
    assert multiset(a + b) == multiset(a) + multiset(b);
  }

  /** In a permutation of `a + b` where only the elements of `b` satisfy `q`, and those have
      distinct keys, the elements satisfying `q` have distinct keys. */
  lemma MarkedKeysDistinct<T, K>(out: seq<T>, a: seq<T>, b: seq<T>, q: T -> bool, key: T -> K)
    requires multiset(out) == multiset(a + b)
    requires forall i | 0 <= i < |a| :: !q(a[i])
    requires forall i | 0 <= i < |b| :: q(b[i])
    requires KeysDistinct(b, key)
    ensures forall i, j | 0 <= i < j < |out| && q(out[i]) && q(out[j]) :: key(out[i]) != key(out[j])
  {
    forall i, j | 0 <= i < j < |out| && q(out[i]) && q(out[j]) ensures key(out[i]) != key(out[j]) {
      assert out[i] in multiset(a + b) && out[j] in multiset(a + b);
      var m :| 0 <= m < |a + b| && (a + b)[m] == out[i];
      var n :| 0 <= n < |a + b| && (a + b)[n] == out[j];
      assert m >= |a| && n >= |a|;
      if out[i] == out[j] {
        TwiceCounted(out, i, j);
        KeysDistinctAllDistinct(b, key);
        OnceInPermutation(out, a, b, out[i]);
      } else if m < n {
        assert key(b[m - |a|]) != key(b[n - |a|]);
      } else {
        assert key(b[n - |a|]) != key(b[m - |a|]);
      }
    }
  }

  /** A permutation of a list with distinct keys has distinct keys. */
  lemma PermutationKeysDistinct<T, K>(s: seq<T>, t: seq<T>, key: T -> K)
    requires multiset(s) == multiset(t) && KeysDistinct(s, key)
    ensures KeysDistinct(t, key)
  {
    forall i, j | 0 <= i < j < |t| ensures key(t[i]) != key(t[j]) {
      assert t[i] in multiset(s) && t[j] in multiset(s);
      var p :| 0 <= p < |s| && s[p] == t[i];
      var q :| 0 <= q < |s| && s[q] == t[j];
      if t[i] == t[j] {
        TwiceCounted(t, i, j);
        DistinctCountsOne(s, t[i]);
      } else {
        assert p != q;
        if p > q { assert key(s[q]) != key(s[p]); }
      }
    }
  }

  /** A permutation of picks from `s` with distinct keys covering `s` does the same. */
  lemma PermutedPicks<T, K>(s: seq<T>, key: T -> K, picks: seq<T>, out: seq<T>)
    requires multiset(picks) == multiset(out)
    requires forall j | 0 <= j < |picks| :: picks[j] in s
    requires KeysDistinct(picks, key)
    requires forall i | 0 <= i < |s| :: exists j | 0 <= j < |picks| :: key(picks[j]) == key(s[i])
    ensures forall j | 0 <= j < |out| :: out[j] in s
    ensures KeysDistinct(out, key)
    ensures forall i | 0 <= i < |s| :: exists j | 0 <= j < |out| :: key(out[j]) == key(s[i])
  {
    PermutationKeysDistinct(picks, out, key);
    forall j | 0 <= j < |out| ensures out[j] in s {
      assert out[j] in multiset(picks);
    }
    forall i | 0 <= i < |s| ensures exists j | 0 <= j < |out| :: key(out[j]) == key(s[i]) {
      var j :| 0 <= j < |picks| && key(picks[j]) == key(s[i]);
      assert picks[j] in multiset(out);
      var k :| 0 <= k < |out| && out[k] == picks[j];
    }
  }

  /** Sorting a list without duplicates gives a list without duplicates. */
  lemma SortByDistinct<T>(s: seq<T>, before: (T, T) -> bool)
    requires AllDistinct(s)
    ensures AllDistinct(SortBy(s, before))
  {
    MultisetDistinct(s, SortBy(s, before));
  }

  /** The elements of `s` mapped through `f`, in order. */
  function MapSeq<T, U>(s: seq<T>, f: T -> U): (r: seq<U>)
    ensures |r| == |s|
    ensures forall i | 0 <= i < |s| :: r[i] == f(s[i])
  {
    seq(|s|, i requires 0 <= i < |s| => f(s[i]))
  }

  /** Mapping one more element of a prefix appends its image. */
  lemma MapSeqSnoc<T, U>(s: seq<T>, n: nat, f: T -> U)
    requires n < |s|
    ensures MapSeq(s[..n + 1], f) == MapSeq(s[..n], f) + [f(s[n])]
  {
    var l, r := MapSeq(s[..n + 1], f), MapSeq(s[..n], f) + [f(s[n])];
    assert forall i | 0 <= i < |l| :: l[i] == r[i];
  }

  /** A left-to-right pass that maps every element while threading a state through. */
  function Thread<A, B, S>(xs: seq<A>, step: (A, S) -> (B, S), s: S): (r: (seq<B>, S))
    ensures |r.0| == |xs|
    decreases |xs|
  {
    if xs == [] then ([], s)
    else
      var prev := Thread(xs[..|xs| - 1], step, s);
      var out := step(xs[|xs| - 1], prev.1);
      (prev.0 + [out.0], out.1)
  }

  /** The `i`-th result is the step applied to the `i`-th element in the state the pass had
      reached by then. */
  lemma {:induction false} ThreadAt<A, B, S>(xs: seq<A>, step: (A, S) -> (B, S), s: S, i: nat)
    requires i < |xs|
    ensures Thread(xs, step, s).0[i] == step(xs[i], Thread(xs[..i], step, s).1).0
    decreases |xs|
  {
    var init := xs[..|xs| - 1];
    if i < |init| {
      ThreadAt(init, step, s, i);
      assert init[..i] == xs[..i];
      assert init[i] == xs[i];
    } else {
      assert init == xs[..i];
    }
  }

  /** The elements of `s` satisfying `p`, in order (`s.filter(p)`). */
  function Filter<T>(s: seq<T>, p: T -> bool): (r: seq<T>)
    ensures |r| <= |s|
    ensures forall i | 0 <= i < |r| :: r[i] in s && p(r[i])
    decreases |s|
  {
    if s == [] then []
    else if p(s[|s| - 1]) then Filter(s[..|s| - 1], p) + [s[|s| - 1]]
    else Filter(s[..|s| - 1], p)
  }

  /** Filtering one more element. */
  lemma FilterSnoc<T>(s: seq<T>, x: T, p: T -> bool)
    ensures Filter(s + [x], p) == if p(x) then Filter(s, p) + [x] else Filter(s, p)
  {
    assert (s + [x])[..|s|] == s;
  }

  /** `Filter` keeps every element that satisfies `p`. (Kept apart from `Filter`'s contract:
      together with the clause above it would let the solver chase membership back and forth.) */
  lemma {:induction false} FilterComplete<T>(s: seq<T>, p: T -> bool)
    ensures forall i | 0 <= i < |s| && p(s[i]) :: s[i] in Filter(s, p)
    decreases |s|
  {
    if s != [] {
      var init := s[..|s| - 1];
      FilterComplete(init, p);
      assert forall i | 0 <= i < |init| :: init[i] == s[i];
    }
  }

  lemma {:induction false} FilterAppend<T>(s: seq<T>, t: seq<T>, p: T -> bool)
    ensures Filter(s + t, p) == Filter(s, p) + Filter(t, p)
    decreases |t|
  {
    if t == [] {
      assert s + t == s;
    } else {
      assert (s + t)[..|s + t| - 1] == s + t[..|t| - 1];
      FilterAppend(s, t[..|t| - 1], p);
    }
  }

  /** `Filter` keeps every copy of an element that satisfies `p`, and no copy of one that does not. */
  lemma {:induction false} FilterMultiplicity<T>(s: seq<T>, p: T -> bool, x: T)
    ensures multiset(Filter(s, p))[x] == if p(x) then multiset(s)[x] else 0
    decreases |s|
  {
    if s != [] {
      var init := s[..|s| - 1];
      assert s == init + [s[|s| - 1]];
      FilterMultiplicity(init, p, x);
    }
  }

  /** Filtering by a test that holds everywhere keeps everything. */
  lemma {:induction false} FilterAll<T>(s: seq<T>)
    ensures Filter(s, x => true) == s
    decreases |s|
  {
    if s != [] {
      FilterAll(s[..|s| - 1]);
    }
  }

  /** Filtering a duplicate-free list leaves it duplicate-free. */
  lemma FilterDistinct<T>(s: seq<T>, p: T -> bool)
    requires AllDistinct(s)
    ensures AllDistinct(Filter(s, p))
  {
    var f := Filter(s, p);
    forall i, j | 0 <= i < j < |f| ensures f[i] != f[j] {
      if f[i] == f[j] {
        TwiceCounted(f, i, j);
        FilterMultiplicity(s, p, f[i]);
        DistinctCountsOne(s, f[i]);
      }
    }
  }

  /** Both tests hold. */
  function Both<T>(p: T -> bool, q: T -> bool): T -> bool {
    x => p(x) && q(x)
  }

  /** Filtering twice is filtering once by both tests. */
  lemma {:induction false} FilterFilter<T>(s: seq<T>, p: T -> bool, q: T -> bool)
    ensures Filter(Filter(s, p), q) == Filter(s, Both(p, q))
    decreases |s|
  {
    if s != [] {
      var init := s[..|s| - 1];
      var x := s[|s| - 1];
      FilterFilter(init, p, q);
      if p(x) {
        FilterSnoc(Filter(init, p), x, q);
      }
    }
  }

  /** Tests that agree on the elements of `s` filter it alike. */
  lemma {:induction false} FilterCongruent<T>(s: seq<T>, p: T -> bool, q: T -> bool)
    requires forall i | 0 <= i < |s| :: p(s[i]) == q(s[i])
    ensures Filter(s, p) == Filter(s, q)
    decreases |s|
  {
    if s != [] {
      var init := s[..|s| - 1];
      assert forall i | 0 <= i < |init| :: init[i] == s[i];
      FilterCongruent(init, p, q);
    }
  }

  /** Filtering keeps a list sorted. */
  lemma {:induction false} FilterSorted<T>(s: seq<T>, p: T -> bool, before: (T, T) -> bool)
    requires SortedBy(s, before)
    ensures SortedBy(Filter(s, p), before)
    decreases |s|
  {
    if s != [] {
      var init := s[..|s| - 1];
      var x := s[|s| - 1];
      assert SortedBy(init, before) by {
        forall i, j | 0 <= i < j < |init| ensures !before(init[j], init[i]) {
          assert init[i] == s[i] && init[j] == s[j];
        }
      }
      FilterSorted(init, p, before);
      if p(x) {
        var f := Filter(init, p);
        forall i, j | 0 <= i < j < |f + [x]| ensures !before((f + [x])[j], (f + [x])[i]) {
          if j == |f| {
            assert f[i] in init;
            var k :| 0 <= k < |init| && init[k] == f[i];
            assert s[k] == f[i];
          } else {
            assert (f + [x])[j] == f[j] && (f + [x])[i] == f[i];
          }
        }
      }
    }
  }

  /** Number of elements satisfying `p`. */
  function Count<T>(s: seq<T>, p: T -> bool): (n: nat)
    ensures n <= |s|
    ensures n == |Filter(s, p)|
    decreases |s|
  {
    if s == [] then 0 else Count(s[..|s| - 1], p) + (if p(s[|s| - 1]) then 1 else 0)
  }

  /** The test does not hold. */
  function Not<T>(p: T -> bool): T -> bool {
    x => !p(x)
  }

  /** Every element satisfies a test or its negation. */
  lemma {:induction false} CountSplit<T>(s: seq<T>, p: T -> bool)
    ensures Count(s, p) + Count(s, Not(p)) == |s|
    decreases |s|
  {
    if s != [] {
      CountSplit(s[..|s| - 1], p);
    }
  }

  /** Fewer elements pass two tests than the first. */
  lemma {:induction false} CountBoth<T>(s: seq<T>, p: T -> bool, q: T -> bool)
    ensures Count(s, Both(p, q)) <= Count(s, p)
    decreases |s|
  {
    if s != [] {
      CountBoth(s[..|s| - 1], p, q);
    }
  }

  /** No element passes exactly when none is counted. */
  lemma {:induction false} CountNone<T>(s: seq<T>, p: T -> bool)
    ensures Count(s, p) == 0 <==> forall i | 0 <= i < |s| :: !p(s[i])
    decreases |s|
  {
    if s != [] {
      var init := s[..|s| - 1];
      CountNone(init, p);
      assert forall i | 0 <= i < |init| :: init[i] == s[i];
    }
  }

  /** The present results of `f` over `s`, in order: a loop that pushes a value for each
      element that yields one. */
  function FilterMap<A, B>(s: seq<A>, f: A -> Option<B>): (r: seq<B>)
    ensures |r| <= |s|
    decreases |s|
  {
    if s == [] then []
    else
      var prev := FilterMap(s[..|s| - 1], f);
      match f(s[|s| - 1])
      case None => prev
      case Some(y) => prev + [y]
  }

  /** The elements for which `f` yields a value. */
  function Yields<A, B>(f: A -> Option<B>): A -> bool {
    x => f(x).Some?
  }

  /** Every result comes from an element, and every element's result is there: one result
      per element that yields one. */
  lemma {:induction false} FilterMapMembers<A, B>(s: seq<A>, f: A -> Option<B>)
    ensures forall k | 0 <= k < |FilterMap(s, f)| :: exists i | 0 <= i < |s| :: f(s[i]) == Some(FilterMap(s, f)[k])
    ensures forall i | 0 <= i < |s| && f(s[i]).Some? :: f(s[i]).value in FilterMap(s, f)
    ensures |FilterMap(s, f)| == Count(s, Yields(f))
    decreases |s|
  {
    if s != [] {
      var n := |s| - 1;
      var init := s[..n];
      FilterMapMembers(init, f);
      var prev := FilterMap(init, f);
      var r := FilterMap(s, f);
      assert forall k | 0 <= k < |prev| :: r[k] == prev[k];
      forall k | 0 <= k < |r| ensures exists i | 0 <= i < |s| :: f(s[i]) == Some(r[k]) {
        if k < |prev| {
          var i :| 0 <= i < |init| && f(init[i]) == Some(prev[k]);
          assert s[i] == init[i];
        } else {
          assert r == prev + [f(s[n]).value];
          assert f(s[n]) == Some(r[k]);
        }
      }
      forall i | 0 <= i < |s| && f(s[i]).Some? ensures f(s[i]).value in r {
        if i < n {
          assert s[i] == init[i];
        }
      }
    } else {
      assert FilterMap(s, f) == [];
    }
  }
}
