/**
 * The `Array.prototype` operations that the decoder and the dashboards chain
 * together: `filter`, `filter(...).length`, `slice(0, n)` and `sort` with a
 * numeric-difference comparator `(a, b) => key(b) - key(a)`.
 *
 * ECMAScript requires `sort` to be stable, and such a comparator returns 0
 * exactly on equal keys, so the sorted array is the stable descending sort by
 * `key`. It is modelled here by an insertion sort, and `StableSortIsUnique`
 * shows that any permutation that is descending and keeps tied elements in
 * their original order is that same sequence.
 */
module ArrayOps {

  /** `s.filter(p)`: the elements of `s` that satisfy `p`, in their original order. */
  function Filter<T>(s: seq<T>, p: T -> bool): (r: seq<T>)
    ensures |r| <= |s|
    ensures forall i :: 0 <= i < |r| ==> p(r[i])
    ensures forall i :: 0 <= i < |s| && p(s[i]) ==> s[i] in r
    ensures multiset(r) <= multiset(s)
  {
    if s == [] then []
    else
      assert s == [s[0]] + s[1..];
      (if p(s[0]) then [s[0]] else []) + Filter(s[1..], p)
  }

  /** Filtering a concatenation filters each part and keeps their order. */
  lemma {:induction false} FilterAppend<T>(a: seq<T>, b: seq<T>, p: T -> bool)
    ensures Filter(a + b, p) == Filter(a, p) + Filter(b, p)
    decreases |a|
  {
    if a == [] {
      assert a + b == b;
    } else {
      var h := if p(a[0]) then [a[0]] else [];
      assert (a + b)[0] == a[0] && (a + b)[1..] == a[1..] + b;
      calc {
        Filter(a + b, p);
        h + Filter(a[1..] + b, p);
        { FilterAppend(a[1..], b, p); }
        h + (Filter(a[1..], p) + Filter(b, p));
        (h + Filter(a[1..], p)) + Filter(b, p);
        Filter(a, p) + Filter(b, p);
      }
    }
  }

  /** Filtering a list whose first element is `x`. */
  lemma FilterCons<T>(x: T, s: seq<T>, p: T -> bool)
    ensures Filter([x] + s, p) == (if p(x) then [x] else []) + Filter(s, p)
  {
    assert ([x] + s)[0] == x;
    assert ([x] + s)[1..] == s;
  }

  /** `filter` keeps every passing element as often as it occurs, and no other. */
  lemma {:induction false} FilterMultiplicity<T>(s: seq<T>, p: T -> bool, x: T)
    ensures multiset(Filter(s, p))[x] == if p(x) then multiset(s)[x] else 0
    decreases |s|
  {
    if s != [] {
      FilterMultiplicity(s[1..], p, x);
      FilterCons(s[0], s[1..], p);
      assert s == [s[0]] + s[1..];
    }
  }

  /** `s.map(f)`. */
  function Map<T, U>(f: T -> U, s: seq<T>): (r: seq<U>)
    ensures |r| == |s|
    ensures forall i :: 0 <= i < |s| ==> r[i] == f(s[i])
  {
    seq(|s|, i requires 0 <= i < |s| => f(s[i]))
  }

  /** Mapping a list with one more element in front. */
  lemma MapCons<T, U>(f: T -> U, x: T, s: seq<T>)
    ensures Map(f, [x] + s) == [f(x)] + Map(f, s)
  {
    var l, r := Map(f, [x] + s), [f(x)] + Map(f, s);
    forall i | 0 <= i < |l| ensures l[i] == r[i] {
      if i > 0 {
        assert ([x] + s)[i] == s[i - 1];
      }
    }
  }

  /** `s.filter(p).length`. */
  function Count<T>(s: seq<T>, p: T -> bool): (n: nat)
    ensures n <= |s|
    ensures n == 0 <==> forall i :: 0 <= i < |s| ==> !p(s[i])
  {
    var r := Filter(s, p);
    assert r != [] ==> r[0] in multiset(s) && p(r[0]);
    |r|
  }

  /** Counting over a list whose first element is `x`. */
  lemma CountCons<T>(x: T, s: seq<T>, p: T -> bool)
    ensures Count([x] + s, p) == (if p(x) then 1 else 0) + Count(s, p)
  {
    assert ([x] + s)[0] == x;
    assert ([x] + s)[1..] == s;
  }

  /** Counting over a concatenation adds the counts of the parts. */
  lemma CountAppend<T>(a: seq<T>, b: seq<T>, p: T -> bool)
    ensures Count(a + b, p) == Count(a, p) + Count(b, p)
  {
    FilterAppend(a, b, p);
  }

  /** Two tests that no element passes together count at most the whole list. */
  lemma {:induction false} CountDisjoint<T>(s: seq<T>, p: T -> bool, q: T -> bool)
    requires forall i :: 0 <= i < |s| ==> !(p(s[i]) && q(s[i]))
    ensures Count(s, p) + Count(s, q) <= |s|
  {
    if s != [] {
      CountDisjoint(s[1..], p, q);
      CountCons(s[0], s[1..], p);
      CountCons(s[0], s[1..], q);
      assert [s[0]] + s[1..] == s;
    }
  }

  /** `s.slice(0, n)`. */
  function Take<T>(s: seq<T>, n: nat): (r: seq<T>)
    ensures |r| == if n < |s| then n else |s|
    ensures r <= s
  {
    if n < |s| then s[..n] else s
  }

  /** A list drawn from `s.filter(p)` holds only elements that pass `p` and that `s` holds. */
  lemma FilterMembers<T>(s: seq<T>, p: T -> bool, r: seq<T>)
    requires multiset(r) <= multiset(Filter(s, p))
    ensures forall i :: 0 <= i < |r| ==> p(r[i])
    ensures multiset(r) <= multiset(s)
  {
    var f := Filter(s, p);
    forall i | 0 <= i < |r| ensures p(r[i]) {
      assert r[i] in multiset(f);
      var j :| 0 <= j < |f| && f[j] == r[i];
    }
  }

  /** The concatenation of `f(x)` over the elements `x` of `s`, in order. */
  function FlatMap<T, U>(f: T -> seq<U>, s: seq<T>): (r: seq<U>)
    decreases |s|
  {
    if s == [] then [] else FlatMap(f, s[..|s| - 1]) + f(s[|s| - 1])
  }

  /** Visiting one more element at the end appends its part. */
  lemma FlatMapAppend<T, U>(f: T -> seq<U>, s: seq<T>, x: T)
    ensures FlatMap(f, s + [x]) == FlatMap(f, s) + f(x)
  {
    assert (s + [x])[..|s|] == s;
  }

  /** The concatenation is non-empty exactly when some element contributes a part. */
  lemma {:induction false} FlatMapNonEmpty<T, U>(f: T -> seq<U>, s: seq<T>)
    ensures FlatMap(f, s) != [] <==> exists i :: 0 <= i < |s| && f(s[i]) != []
    decreases |s|
  {
    if s != [] {
      var front := s[..|s| - 1];
      FlatMapNonEmpty(f, front);
      if exists i :: 0 <= i < |front| && f(front[i]) != [] {
        var i :| 0 <= i < |front| && f(front[i]) != [];
        assert s[i] == front[i];
      }
      if exists i :: 0 <= i < |s| && f(s[i]) != [] {
        var i :| 0 <= i < |s| && f(s[i]) != [];
        if i < |front| {
          assert front[i] == s[i];
        }
      }
    }
  }

  /** An element of the concatenation comes from the part of some element, and every part is in it. */
  lemma {:induction false} FlatMapMembers<T, U>(f: T -> seq<U>, s: seq<T>, y: U)
    ensures y in FlatMap(f, s) <==> exists i :: 0 <= i < |s| && y in f(s[i])
    decreases |s|
  {
    if s != [] {
      var front := s[..|s| - 1];
      FlatMapMembers(f, front, y);
      if exists i :: 0 <= i < |front| && y in f(front[i]) {
        var i :| 0 <= i < |front| && y in f(front[i]);
        assert s[i] == front[i];
      }
      if exists i :: 0 <= i < |s| && y in f(s[i]) {
        var i :| 0 <= i < |s| && y in f(s[i]);
        if i < |front| {
          assert front[i] == s[i];
        }
      }
    }
  }

  /** Non-increasing in `key`: the order `(a, b) => key(b) - key(a)` asks for. */
  ghost predicate SortedDesc<T>(s: seq<T>, key: T -> real)
  {
    forall i, j :: 0 <= i < j < |s| ==> key(s[i]) >= key(s[j])
  }

  /** A prefix of a descending list is descending and drawn from it. */
  lemma TakeSorted<T>(s: seq<T>, n: nat, key: T -> real)
    ensures multiset(Take(s, n)) <= multiset(s)
    ensures SortedDesc(s, key) ==> SortedDesc(Take(s, n), key)
  {
    var r := Take(s, n);
    assert s == r + s[|r|..];
  }

  /**
   * A prefix of a descending list keeps its largest elements: any element of
   * the list is in the prefix, or the prefix is full and its last key is at
   * least the element's.
   */
  lemma TakeKeepsLargest<T>(s: seq<T>, n: nat, key: T -> real, x: T)
    requires SortedDesc(s, key) && x in s && n > 0
    ensures x in Take(s, n) || (|Take(s, n)| == n && key(x) <= key(Take(s, n)[n - 1]))
  {
    var j :| 0 <= j < |s| && s[j] == x;
    if j >= n {
      assert key(s[n - 1]) >= key(s[j]);
    } else {
      assert Take(s, n)[j] == s[j];
    }
  }

  /** Places `x` before the first element whose key is not larger than its own. */
  function Insert<T>(x: T, s: seq<T>, key: T -> real): (r: seq<T>)
    ensures multiset(r) == multiset([x] + s)
    ensures |r| == |s| + 1
  {
    if s == [] || key(x) >= key(s[0]) then [x] + s
    else
      assert s == [s[0]] + s[1..];
      [s[0]] + Insert(x, s[1..], key)
  }

  /** The stable descending sort of `s` by `key`. */
  function SortDesc<T>(s: seq<T>, key: T -> real): (r: seq<T>)
    ensures multiset(r) == multiset(s)
    ensures |r| == |s|
  {
    if s == [] then []
    else
      assert s == [s[0]] + s[1..];
      Insert(s[0], SortDesc(s[1..], key), key)
  }

  /** An element at least as large as every element of a descending list can go in front of it. */
  lemma ConsSorted<T>(h: T, t: seq<T>, key: T -> real)
    requires SortedDesc(t, key)
    requires forall i :: 0 <= i < |t| ==> key(t[i]) <= key(h)
    ensures SortedDesc([h] + t, key)
  {
    var r := [h] + t;
    forall i, j | 0 <= i < j < |r| ensures key(r[i]) >= key(r[j]) {
      assert r[j] == t[j - 1];
      if i > 0 {
        assert r[i] == t[i - 1];
      }
    }
  }

  /** A bound on the keys of a list holds for any permutation of it. */
  lemma BoundedPermutation<T>(t: seq<T>, u: seq<T>, key: T -> real, b: real)
    requires multiset(t) == multiset(u)
    requires forall i :: 0 <= i < |u| ==> key(u[i]) <= b
    ensures forall i :: 0 <= i < |t| ==> key(t[i]) <= b
  {
    forall i | 0 <= i < |t| ensures key(t[i]) <= b {
      assert t[i] in multiset(u);
      var k :| 0 <= k < |u| && u[k] == t[i];
    }
  }

  lemma {:induction false} InsertSorted<T>(x: T, s: seq<T>, key: T -> real)
    requires SortedDesc(s, key)
    ensures SortedDesc(Insert(x, s, key), key)
  {
    if s == [] || key(x) >= key(s[0]) {
      forall i | 0 <= i < |s| ensures key(s[i]) <= key(x) {
        if i > 0 {
          assert key(s[0]) >= key(s[i]);
        }
      }
      ConsSorted(x, s, key);
    } else {
      var rest := s[1..];
      SortedTail(s, key);
      InsertSorted(x, rest, key);
      var u := [x] + rest;
      forall i | 0 <= i < |u| ensures key(u[i]) <= key(s[0]) {
        if i > 0 {
          assert u[i] == s[i];
          assert key(s[0]) >= key(s[i]);
        }
      }
      BoundedPermutation(Insert(x, rest, key), u, key, key(s[0]));
      ConsSorted(s[0], Insert(x, rest, key), key);
    }
  }

  /** The sort is descending in `key`. */
  lemma {:induction false} SortDescSorted<T>(s: seq<T>, key: T -> real)
    ensures SortedDesc(SortDesc(s, key), key)
  {
    if s != [] {
      SortDescSorted(s[1..], key);
      InsertSorted(s[0], SortDesc(s[1..], key), key);
    }
  }

  /** The elements of `s` whose key is `k`, in their order in `s`. */
  function Tied<T>(s: seq<T>, key: T -> real, k: real): (r: seq<T>)
    ensures forall i :: 0 <= i < |r| ==> key(r[i]) == k
  {
    if s == [] then []
    else
      assert s == [s[0]] + s[1..];
      (if key(s[0]) == k then [s[0]] else []) + Tied(s[1..], key, k)
  }

  lemma {:induction false} InsertTied<T>(x: T, s: seq<T>, key: T -> real, k: real)
    ensures Tied(Insert(x, s, key), key, k) == (if key(x) == k then [x] else []) + Tied(s, key, k)
  {
    if s == [] || key(x) >= key(s[0]) {
      var r := [x] + s;
      assert r[0] == x && r[1..] == s;
      assert Insert(x, s, key) == r;
    } else {
      var u := Insert(x, s[1..], key);
      var r := [s[0]] + u;
      assert r[0] == s[0] && r[1..] == u;
      assert Insert(x, s, key) == r;
      InsertTied(x, s[1..], key, k);
      var head := if key(s[0]) == k then [s[0]] else [];
      assert Tied(r, key, k) == head + Tied(u, key, k);
      assert Tied(s, key, k) == head + Tied(s[1..], key, k);
      if key(x) == k {
        assert head == [];
      } else {
        assert Tied(u, key, k) == Tied(s[1..], key, k);
      }
    }
  }

  /** Stability: elements with equal keys keep their relative order. */
  lemma {:induction false} SortDescStable<T>(s: seq<T>, key: T -> real, k: real)
    ensures Tied(SortDesc(s, key), key, k) == Tied(s, key, k)
  {
    if s != [] {
      SortDescStable(s[1..], key, k);
      InsertTied(s[0], SortDesc(s[1..], key), key, k);
    }
  }

  /** The first element of a descending list has the largest key of the list. */
  lemma HeadIsLargest<T>(r: seq<T>, key: T -> real, y: T)
    requires SortedDesc(r, key) && y in r
    ensures key(y) <= key(r[0])
  {
    var i :| 0 <= i < |r| && r[i] == y;
    if i > 0 {
      assert key(r[0]) >= key(r[i]);
    }
  }

  /** Lists with the same first element and the same tied groups have tails with the same tied groups. */
  lemma TailsTied<T>(r: seq<T>, t: seq<T>, key: T -> real, k: real)
    requires r != [] && t != [] && r[0] == t[0]
    requires Tied(r, key, k) == Tied(t, key, k)
    ensures Tied(r[1..], key, k) == Tied(t[1..], key, k)
  {
    var h: seq<T> := if key(r[0]) == k then [r[0]] else [];
    assert Tied(r, key, k) == h + Tied(r[1..], key, k);
    assert Tied(t, key, k) == h + Tied(t[1..], key, k);
    assert (h + Tied(r[1..], key, k))[|h|..] == Tied(r[1..], key, k);
    assert (h + Tied(t[1..], key, k))[|h|..] == Tied(t[1..], key, k);
  }

  /** In two lists with the same tied groups, heads with the same key are the same element. */
  lemma HeadsTied<T>(r: seq<T>, t: seq<T>, key: T -> real)
    requires r != [] && t != [] && key(r[0]) == key(t[0])
    requires Tied(r, key, key(r[0])) == Tied(t, key, key(r[0]))
    ensures r[0] == t[0]
  {
    var m := key(r[0]);
    var tr := Tied(r, key, m);
    var tt := Tied(t, key, m);
    assert tr == [r[0]] + Tied(r[1..], key, m);
    assert tt == [t[0]] + Tied(t[1..], key, m);
    assert tr[0] == r[0];
    assert tt[0] == t[0];
  }

  /** Two descending permutations of one non-empty list with the same tied groups start alike. */
  lemma SameHead<T>(r: seq<T>, t: seq<T>, key: T -> real)
    requires r != [] && multiset(r) == multiset(t)
    requires SortedDesc(r, key) && SortedDesc(t, key)
    requires forall k :: Tied(r, key, k) == Tied(t, key, k)
    ensures t != [] && r[0] == t[0]
  {
    assert |t| == |multiset(t)| == |r|;
    assert t[0] in multiset(r) && r[0] in multiset(t);
    HeadIsLargest(r, key, t[0]);
    HeadIsLargest(t, key, r[0]);
    HeadsTied(r, t, key);
  }

  /** Dropping the first element keeps a list descending. */
  lemma SortedTail<T>(r: seq<T>, key: T -> real)
    requires r != [] && SortedDesc(r, key)
    ensures SortedDesc(r[1..], key)
  {
    forall i, j | 0 <= i < j < |r| - 1 ensures key(r[1..][i]) >= key(r[1..][j]) {
      assert r[1..][i] == r[i + 1] && r[1..][j] == r[j + 1];
    }
  }

  /** Dropping a common first element keeps two lists permutations of each other. */
  lemma SameTailMultiset<T>(r: seq<T>, t: seq<T>)
    requires r != [] && t != [] && r[0] == t[0] && multiset(r) == multiset(t)
    ensures multiset(r[1..]) == multiset(t[1..])
  {
    assert r == [r[0]] + r[1..] && t == [t[0]] + t[1..];
    assert multiset(r[1..]) == multiset(r) - multiset{r[0]};
    assert multiset(t[1..]) == multiset(t) - multiset{t[0]};
  }

  /**
   * Two descending permutations of one list that keep every group of tied
   * elements in the same order are equal.
   */
  lemma {:induction false} SortedTiedUnique<T>(r: seq<T>, t: seq<T>, key: T -> real)
    requires multiset(r) == multiset(t)
    requires SortedDesc(r, key) && SortedDesc(t, key)
    requires forall k :: Tied(r, key, k) == Tied(t, key, k)
    ensures r == t
  {
    if r == [] {
      assert |t| == |multiset(t)| == 0;
    } else {
      SameHead(r, t, key);
      forall k ensures Tied(r[1..], key, k) == Tied(t[1..], key, k) {
        TailsTied(r, t, key, k);
      }
      SortedTail(r, key);
      SortedTail(t, key);
      SameTailMultiset(r, t);
      SortedTiedUnique(r[1..], t[1..], key);
      assert r == [r[0]] + r[1..] && t == [t[0]] + t[1..];
    }
  }

  /**
   * What ECMAScript promises of a stable sort with this comparator (a
   * permutation, descending, ties in their original order) determines the
   * result: it is `SortDesc`.
   */
  lemma StableSortIsUnique<T>(s: seq<T>, r: seq<T>, key: T -> real)
    requires multiset(r) == multiset(s)
    requires SortedDesc(r, key)
    requires forall k :: Tied(r, key, k) == Tied(s, key, k)
    ensures r == SortDesc(s, key)
  {
    var t := SortDesc(s, key);
    SortDescSorted(s, key);
    forall k ensures Tied(r, key, k) == Tied(t, key, k) {
      SortDescStable(s, key, k);
    }
    SortedTiedUnique(r, t, key);
  }
}
