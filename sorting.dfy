/**
 * Ordering and selection shared by the server queries and the client code:
 * the stable sort `Array.prototype.sort` performs with a comparator, the
 * order-keeping `Array.prototype.filter`, and listings of a collection in
 * creation order (ids are handed out in creation order).
 */
module Sorting {
  import opened Wrappers

  /** Every earlier element is `le` every later one. */
  predicate Sorted<T>(s: seq<T>, le: (T, T) -> bool) {
    forall i, j :: 0 <= i < j < |s| ==> le(s[i], s[j])
  }

  ghost predicate Total<T(!new)>(le: (T, T) -> bool) {
    forall a, b :: le(a, b) || le(b, a)
  }

  ghost predicate Transitive<T(!new)>(le: (T, T) -> bool) {
    forall a, b, c :: le(a, b) && le(b, c) ==> le(a, c)
  }

  /** Puts `x` before the first element it is `le`, so earlier equals stay first. */
  function Insert<T>(x: T, s: seq<T>, le: (T, T) -> bool): (r: seq<T>)
    ensures |r| == |s| + 1
    ensures multiset(r) == multiset(s) + multiset{x}
  {
    if s == [] then [x]
    else if le(x, s[0]) then [x] + s
    else assert s == [s[0]] + s[1..]; [s[0]] + Insert(x, s[1..], le)
  }

  /** A stable insertion sort: `[...s].sort(cmp)` with `le(a, b)` meaning `cmp(a, b) <= 0`. */
  function Sort<T>(s: seq<T>, le: (T, T) -> bool): (r: seq<T>)
    ensures multiset(r) == multiset(s)
  {
    if s == [] then [] else assert s == [s[0]] + s[1..]; Insert(s[0], Sort(s[1..], le), le)
  }

  lemma {:induction false} InsertSorted<T(!new)>(x: T, s: seq<T>, le: (T, T) -> bool)
    requires Total(le) && Transitive(le) && Sorted(s, le)
    ensures Sorted(Insert(x, s, le), le)
  {
    if s != [] && !le(x, s[0]) {
      InsertSorted(x, s[1..], le);
      var r := Insert(x, s, le);
      var tail := Insert(x, s[1..], le);
      assert r == [s[0]] + tail;
      assert le(s[0], x);
      forall k | 0 <= k < |tail| ensures le(s[0], tail[k]) {
        assert tail[k] in multiset(tail);
        assert tail[k] in multiset(s[1..]) + multiset{x};
        if tail[k] != x {
          assert tail[k] in s[1..];
        }
      }
    }
  }

  /** With a total preorder the result is in order. */
  lemma {:induction false} SortSorted<T(!new)>(s: seq<T>, le: (T, T) -> bool)
    requires Total(le) && Transitive(le)
    ensures Sorted(Sort(s, le), le)
  {
    if s != [] {
      SortSorted(s[1..], le);
      InsertSorted(s[0], Sort(s[1..], le), le);
    }
  }

  /** `le` is a total preorder on the elements of `all`. */
  ghost predicate PreorderOn<T>(all: seq<T>, le: (T, T) -> bool) {
    (forall a, b :: a in all && b in all ==> le(a, b) || le(b, a))
    && forall a, b, c :: a in all && b in all && c in all && le(a, b) && le(b, c) ==> le(a, c)
  }

  lemma {:induction false} InsertSortedOn<T>(x: T, s: seq<T>, le: (T, T) -> bool, all: seq<T>)
    requires PreorderOn(all, le) && x in all && (forall y :: y in s ==> y in all) && Sorted(s, le)
    ensures Sorted(Insert(x, s, le), le)
  {
    if s != [] && !le(x, s[0]) {
      InsertSortedOn(x, s[1..], le, all);
      var r := Insert(x, s, le);
      var tail := Insert(x, s[1..], le);
      assert r == [s[0]] + tail;
      assert s[0] in all && le(s[0], x);
      forall k | 0 <= k < |tail| ensures le(s[0], tail[k]) {
        assert tail[k] in multiset(tail);
        assert tail[k] in multiset(s[1..]) + multiset{x};
        if tail[k] != x {
          assert tail[k] in s[1..];
        }
      }
    }
  }

  lemma {:induction false} SortSortedIn<T>(s: seq<T>, le: (T, T) -> bool, all: seq<T>)
    requires PreorderOn(all, le) && forall y :: y in s ==> y in all
    ensures Sorted(Sort(s, le), le)
  {
    if s != [] {
      SortSortedIn(s[1..], le, all);
      forall y | y in Sort(s[1..], le) ensures y in all {
        assert y in multiset(Sort(s[1..], le));
        assert y in s[1..];
      }
      InsertSortedOn(s[0], Sort(s[1..], le), le, all);
    }
  }

  /** With an order that is a total preorder on the elements being sorted, the result is in order. */
  lemma SortSortedOn<T>(s: seq<T>, le: (T, T) -> bool)
    requires PreorderOn(s, le)
    ensures Sorted(Sort(s, le), le)
  {
    SortSortedIn(s, le, s);
  }

  /** A sequence already in order is left as it is. */
  lemma {:induction false} SortOfSorted<T>(s: seq<T>, le: (T, T) -> bool)
    requires Sorted(s, le)
    ensures Sort(s, le) == s
  {
    if s != [] {
      assert Sorted(s[1..], le);
      SortOfSorted(s[1..], le);
      if |s| > 1 {
        assert le(s[0], s[1]);
      }
    }
  }

  /** `s.map(f)`. */
  function Map<T, U>(s: seq<T>, f: T -> U): (r: seq<U>)
    ensures |r| == |s| && forall i :: 0 <= i < |s| ==> r[i] == f(s[i])
  {
    if s == [] then [] else [f(s[0])] + Map(s[1..], f)
  }

  /** `s.filter(p)`. */
  function Filter<T>(s: seq<T>, p: T -> bool): (r: seq<T>)
    ensures |r| <= |s|
    ensures forall i :: 0 <= i < |r| ==> r[i] in s && p(r[i])
    ensures forall i :: 0 <= i < |s| && p(s[i]) ==> s[i] in r
  {
    if s == [] then []
    else
      assert s == [s[0]] + s[1..];
      if p(s[0]) then [s[0]] + Filter(s[1..], p) else Filter(s[1..], p)
  }

  /** Filtering adds nothing: every element kept occurs at least as often before. */
  lemma {:induction false} FilterSub<T>(s: seq<T>, p: T -> bool)
    ensures multiset(Filter(s, p)) <= multiset(s)
  {
    if s != [] {
      var t := s[1..];
      FilterSub(t, p);
      assert s == [s[0]] + t;
      assert Filter(s, p) == if p(s[0]) then [s[0]] + Filter(t, p) else Filter(t, p);
    }
  }

  /** Filtering one element keeps it or drops it. */
  lemma FilterOne<T>(x: T, p: T -> bool)
    ensures Filter([x], p) == (if p(x) then [x] else [])
  {
    assert [x][1..] == [];
  }

  /** Filtering keeps the relative order: an order on `s` holds on the result. */
  lemma {:induction false} FilterSorted<T>(s: seq<T>, p: T -> bool, le: (T, T) -> bool)
    requires Sorted(s, le)
    ensures Sorted(Filter(s, p), le)
  {
    if s != [] {
      assert Sorted(s[1..], le);
      FilterSorted(s[1..], p, le);
      var rest := Filter(s[1..], p);
      forall k | 0 <= k < |rest| ensures le(s[0], rest[k]) {
        assert rest[k] in s[1..];
      }
    }
  }

  /** A filter that accepts every element keeps the sequence as it is. */
  lemma {:induction false} FilterAllKept<T>(s: seq<T>, p: T -> bool)
    requires forall i :: 0 <= i < |s| ==> p(s[i])
    ensures Filter(s, p) == s
  {
    if s != [] {
      FilterAllKept(s[1..], p);
      assert s == [s[0]] + s[1..];
    }
  }

  /** Filtering a concatenation filters each part. */
  lemma {:induction false} FilterAppend<T>(s: seq<T>, u: seq<T>, p: T -> bool)
    ensures Filter(s + u, p) == Filter(s, p) + Filter(u, p)
  {
    if s != [] {
      assert (s + u)[0] == s[0] && (s + u)[1..] == s[1..] + u;
      FilterAppend(s[1..], u, p);
    } else {
      assert s + u == u;
    }
  }

  /** Filters that agree on every element give the same result. */
  lemma {:induction false} FilterEquiv<T>(s: seq<T>, p: T -> bool, q: T -> bool)
    requires forall i :: 0 <= i < |s| ==> p(s[i]) == q(s[i])
    ensures Filter(s, p) == Filter(s, q)
  {
    if s != [] {
      FilterEquiv(s[1..], p, q);
    }
  }

  /** Two filters applied one after the other commute. */
  lemma {:induction false} FilterCommute<T>(s: seq<T>, p: T -> bool, q: T -> bool)
    ensures Filter(Filter(s, p), q) == Filter(Filter(s, q), p)
  {
    if s != [] {
      FilterCommute(s[1..], p, q);
    }
  }

  /** A filter and its complement split the elements between them. */
  lemma {:induction false} FilterComplement<T>(s: seq<T>, p: T -> bool, np: T -> bool)
    requires forall i :: 0 <= i < |s| ==> np(s[i]) == !p(s[i])
    ensures multiset(Filter(s, p)) + multiset(Filter(s, np)) == multiset(s)
  {
    if s == [] {
      assert Filter(s, p) == [] && Filter(s, np) == [];
    } else {
      var t := s[1..];
      assert forall i :: 0 <= i < |t| ==> t[i] == s[i + 1];
      FilterComplement(t, p, np);
      FilterSplit(s[0], t, p, np);
      assert s == [s[0]] + t;
    }
  }

  lemma FilterSplit<T>(x: T, t: seq<T>, p: T -> bool, np: T -> bool)
    requires np(x) == !p(x)
    requires multiset(Filter(t, p)) + multiset(Filter(t, np)) == multiset(t)
    ensures multiset(Filter([x] + t, p)) + multiset(Filter([x] + t, np)) == multiset([x] + t)
  {
    var s := [x] + t;
    assert s[0] == x && s[1..] == t;
    if p(x) {
      assert Filter(s, p) == [x] + Filter(t, p) && Filter(s, np) == Filter(t, np);
    } else {
      assert Filter(s, p) == Filter(t, p) && Filter(s, np) == [x] + Filter(t, np);
    }
  }

  /** No element occurs twice. */
  predicate Distinct<T(==)>(s: seq<T>) {
    forall i, j :: 0 <= i < j < |s| ==> s[i] != s[j]
  }

  lemma {:induction false} FilterDistinct<T>(s: seq<T>, p: T -> bool)
    requires Distinct(s)
    ensures Distinct(Filter(s, p))
  {
    if s != [] {
      assert Distinct(s[1..]);
      FilterDistinct(s[1..], p);
      assert s[0] !in s[1..];
    }
  }

  /** The ids below `n` of the records `keep` accepts, oldest first. */
  function Oldest<T>(m: map<nat, T>, n: nat, keep: T -> bool): (r: seq<nat>)
    ensures forall i :: 0 <= i < |r| ==> r[i] < n
    ensures forall i, j :: 0 <= i < j < |r| ==> r[i] < r[j]
    ensures forall id :: id in r <==> id < n && id in m && keep(m[id])
  {
    if n == 0 then []
    else
      var rest := Oldest(m, n - 1, keep);
      if n - 1 in m && keep(m[n - 1]) then rest + [n - 1] else rest
  }

  /** The same ids, newest first (`.sort({ createdAt: -1 })`). */
  function Newest<T>(m: map<nat, T>, n: nat, keep: T -> bool): (r: seq<nat>)
    ensures forall i :: 0 <= i < |r| ==> r[i] < n
    ensures forall i, j :: 0 <= i < j < |r| ==> r[i] > r[j]
    ensures forall id :: id in r <==> id < n && id in m && keep(m[id])
  {
    if n == 0 then []
    else
      var rest := Newest(m, n - 1, keep);
      if n - 1 in m && keep(m[n - 1]) then [n - 1] + rest else rest
  }

  /** `findOne`: the oldest record `keep` accepts, if there is one. */
  function FirstOf<T>(m: map<nat, T>, n: nat, keep: T -> bool): (r: Option<nat>)
    requires forall k :: k in m ==> k < n
    ensures r.Some? ==> r.value in m && keep(m[r.value])
    ensures r.Some? ==> forall k :: k in m && keep(m[k]) ==> r.value <= k
    ensures r.None? ==> forall k :: k in m ==> !keep(m[k])
  {
    var ids := Oldest(m, n, keep);
    if |ids| == 0 then
      assert forall k :: k in m ==> !keep(m[k]) by {
        forall k | k in m ensures !keep(m[k]) {
          assert k !in ids;
        }
      }
      None
    else
      assert ids[0] in ids;
      assert forall k :: k in m && keep(m[k]) ==> ids[0] <= k by {
        forall k | k in m && keep(m[k]) ensures ids[0] <= k {
          assert k in ids;
        }
      }
      Some(ids[0])
  }

  /**
   * Descending lexicographic order on sort keys (`.sort({ a: -1, b: -1 })`):
   * `a` may come before `b`. A shorter key that is a prefix comes last.
   */
  predicate LexGe(a: seq<int>, b: seq<int>) {
    if b == [] then true
    else if a == [] then false
    else a[0] > b[0] || (a[0] == b[0] && LexGe(a[1..], b[1..]))
  }

  lemma {:induction false} LexGeTotal(a: seq<int>, b: seq<int>)
    ensures LexGe(a, b) || LexGe(b, a)
  {
    if a != [] && b != [] && a[0] == b[0] {
      LexGeTotal(a[1..], b[1..]);
    }
  }

  lemma {:induction false} LexGeTransitive(a: seq<int>, b: seq<int>, c: seq<int>)
    requires LexGe(a, b) && LexGe(b, c)
    ensures LexGe(a, c)
  {
    if a != [] && b != [] && c != [] && a[0] == b[0] && b[0] == c[0] {
      LexGeTransitive(a[1..], b[1..], c[1..]);
    }
  }

  /**
   * Sorting by an order that compares a key of each element in descending
   * lexicographic order, on the elements sorted, puts the keys in that order.
   */
  lemma SortByKeyOn<T>(s: seq<T>, le: (T, T) -> bool, key: T -> seq<int>)
    requires forall a, b :: a in s && b in s ==> le(a, b) == LexGe(key(a), key(b))
    ensures KeyOrdered(Sort(s, le), s, key)
  {
    KeyPreorder(s, le, key);
    SortSortedOn(s, le);
    var r := Sort(s, le);
    forall i, j | 0 <= i < j < |r| ensures r[i] in s && r[j] in s && LexGe(key(r[i]), key(r[j])) {
      assert r[i] in multiset(r) && r[j] in multiset(r);
      assert le(r[i], r[j]);
    }
    assert KeyOrdered(r, s, key);
  }

  /** The elements, all drawn from `s`, have their keys in descending lexicographic order. */
  ghost predicate KeyOrdered<T>(r: seq<T>, s: seq<T>, key: T -> seq<int>) {
    forall i, j :: 0 <= i < j < |r| ==> r[i] in s && r[j] in s && LexGe(key(r[i]), key(r[j]))
  }

  /** A comparison that agrees with the lexicographic order of a key is a preorder. */
  lemma KeyPreorder<T>(s: seq<T>, le: (T, T) -> bool, key: T -> seq<int>)
    requires forall a, b :: a in s && b in s ==> le(a, b) == LexGe(key(a), key(b))
    ensures PreorderOn(s, le)
  {
    forall a, b | a in s && b in s ensures le(a, b) || le(b, a) {
      LexGeTotal(key(a), key(b));
    }
    forall a, b, c | a in s && b in s && c in s && le(a, b) && le(b, c) ensures le(a, c) {
      LexGeTransitive(key(a), key(b), key(c));
    }
  }

  /** Compare records by a key in descending lexicographic order. */
  function ByKey<T>(key: T -> seq<int>): (T, T) -> bool {
    (x: T, y: T) => LexGe(key(x), key(y))
  }

  /** Ordering records by a key is a total preorder, so sorting by it sorts. */
  lemma ByKeyOrder<T(!new)>(key: T -> seq<int>)
    ensures Total(ByKey(key)) && Transitive(ByKey(key))
  {
    forall x: T, y: T ensures LexGe(key(x), key(y)) || LexGe(key(y), key(x)) {
      LexGeTotal(key(x), key(y));
    }
    forall x: T, y: T, z: T | LexGe(key(x), key(y)) && LexGe(key(y), key(z)) ensures LexGe(key(x), key(z)) {
      LexGeTransitive(key(x), key(y), key(z));
    }
  }

  /** `[...s].sort(...)` by a key in descending lexicographic order. */
  function SortByKey<T(!new)>(s: seq<T>, key: T -> seq<int>): (r: seq<T>)
    ensures multiset(r) == multiset(s)
    ensures forall x :: x in r <==> x in s
    ensures Distinct(s) ==> Distinct(r)
    ensures forall i, j :: 0 <= i < j < |r| ==> LexGe(key(r[i]), key(r[j]))
  {
    var r := Sort(s, ByKey(key));
    ByKeyOrder(key);
    SortSorted(s, ByKey(key));
    assert forall x :: x in r <==> x in s by {
      forall x ensures x in r <==> x in s {
        assert x in r <==> x in multiset(r);
        assert x in s <==> x in multiset(s);
      }
    }
    assert Distinct(s) ==> Distinct(r) by {
      if Distinct(s) {
        DistinctPermutation(r, s);
      }
    }
    assert forall i, j :: 0 <= i < j < |r| ==> LexGe(key(r[i]), key(r[j])) by {
      forall i, j | 0 <= i < j < |r| ensures LexGe(key(r[i]), key(r[j])) {
        assert ByKey(key)(r[i], r[j]);
      }
    }
    r
  }

  /** A sequence is duplicate-free exactly when it holds each value at most once. */
  lemma {:induction false} DistinctCount<T>(s: seq<T>)
    ensures Distinct(s) <==> forall x :: multiset(s)[x] <= 1
  {
    if s != [] {
      var rest := s[1..];
      DistinctCount(rest);
      assert s == [s[0]] + rest;
      assert multiset(s) == multiset{s[0]} + multiset(rest);
      if Distinct(s) {
        assert Distinct(rest) by {
          forall i, j | 0 <= i < j < |rest| ensures rest[i] != rest[j] {
            assert rest[i] == s[i + 1] && rest[j] == s[j + 1];
          }
        }
        assert s[0] !in rest by {
          forall j | 0 <= j < |rest| ensures rest[j] != s[0] {
            assert rest[j] == s[j + 1];
          }
        }
      } else {
        var i, j :| 0 <= i < j < |s| && s[i] == s[j];
        if i == 0 {
          assert s[j] == rest[j - 1];
          assert multiset(rest)[s[0]] >= 1;
          assert multiset(s)[s[0]] >= 2;
        } else {
          assert rest[i - 1] == rest[j - 1];
          assert !Distinct(rest);
          var x :| multiset(rest)[x] > 1;
          assert multiset(s)[x] > 1;
        }
      }
    }
  }

  /** Reordering a duplicate-free sequence keeps it duplicate-free. */
  lemma DistinctPermutation<T>(s: seq<T>, t: seq<T>)
    requires Distinct(t) && multiset(s) == multiset(t)
    ensures Distinct(s)
  {
    DistinctCount(s);
    DistinctCount(t);
  }

  /** Ids listed in creation order occur once each. */
  lemma OldestDistinct<T>(m: map<nat, T>, n: nat, keep: T -> bool)
    ensures Distinct(Oldest(m, n, keep))
  {
  }
}
