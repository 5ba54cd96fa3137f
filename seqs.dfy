/** Sequence utilities shared by the extraction engine: an Option type, filtering,
    Python's `str.join`, Python's stable `sorted` over numeric sort keys, and
    sets of floats kept as ascending lists. */
module Seqs {

  datatype Option<+T> = None | Some(value: T)

  /** The elements of `s` whose classification under `f` is `k`, in their original order. */
  function FilterEq<T, K(==)>(s: seq<T>, f: T -> K, k: K): (r: seq<T>)
    ensures |r| <= |s|
  {
    if s == [] then [] else (if f(s[0]) == k then [s[0]] else []) + FilterEq(s[1..], f, k)
  }

  lemma {:induction false} FilterEqAppend<T, K>(a: seq<T>, b: seq<T>, f: T -> K, k: K)
    ensures FilterEq(a + b, f, k) == FilterEq(a, f, k) + FilterEq(b, f, k)
  {
    if a == [] {
      assert a + b == b;
    } else {
      var h := if f(a[0]) == k then [a[0]] else [];
      assert (a + b)[0] == a[0];
      assert (a + b)[1..] == a[1..] + b;
      FilterEqAppend(a[1..], b, f, k);
      calc {
        FilterEq(a + b, f, k);
        h + FilterEq(a[1..] + b, f, k);
        h + (FilterEq(a[1..], f, k) + FilterEq(b, f, k));
        (h + FilterEq(a[1..], f, k)) + FilterEq(b, f, k);
        FilterEq(a, f, k) + FilterEq(b, f, k);
      }
    }
  }

  lemma FilterEqSingle<T, K>(t: T, f: T -> K, k: K)
    ensures FilterEq([t], f, k) == if f(t) == k then [t] else []
  {
    assert [t][1..] == [];
  }

  lemma FilterEqStep<T, K>(done: seq<T>, t: T, f: T -> K, k: K)
    ensures FilterEq(done + [t], f, k) == FilterEq(done, f, k) + (if f(t) == k then [t] else [])
  {
    FilterEqAppend(done, [t], f, k);
    assert [t][1..] == [];
  }

  lemma {:induction false} FilterEqMembers<T, K>(s: seq<T>, f: T -> K, k: K, x: T)
    ensures x in FilterEq(s, f, k) <==> x in s && f(x) == k
  {
    if s != [] {
      FilterEqMembers(s[1..], f, k, x);
      assert x in s <==> x == s[0] || x in s[1..];
    }
  }

  lemma InFilterEq<T, K>(s: seq<T>, f: T -> K, x: T)
    requires x in s
    ensures x in FilterEq(s, f, f(x))
  {
    FilterEqMembers(s, f, f(x), x);
  }

  /** Classifying by `first` and then, for what `first` leaves out, by `second`
      puts every element where the combined classifier `g` puts it. */
  lemma {:induction false} TwoPassFilter<T, K>(s: seq<T>, first: T -> Option<K>, second: T -> K, g: T -> K, k: K)
    requires forall x :: g(x) == if first(x).Some? then first(x).value else second(x)
    ensures multiset(FilterEq(s, first, Some(k)) + FilterEq(FilterEq(s, first, None), second, k))
      == multiset(FilterEq(s, g, k))
  {
    if s != [] {
      TwoPassFilter(s[1..], first, second, g, k);
      if first(s[0]) == None {
        TwoPassUnplaced(s, first, second, g, k);
      } else {
        TwoPassPlaced(s, first, second, g, k);
      }
    }
  }

  lemma {:induction false} TwoPassUnplaced<T, K>(s: seq<T>, first: T -> Option<K>, second: T -> K, g: T -> K, k: K)
    requires forall x :: g(x) == if first(x).Some? then first(x).value else second(x)
    requires s != [] && first(s[0]) == None
    requires multiset(FilterEq(s[1..], first, Some(k)) + FilterEq(FilterEq(s[1..], first, None), second, k))
        == multiset(FilterEq(s[1..], g, k))
    ensures multiset(FilterEq(s, first, Some(k)) + FilterEq(FilterEq(s, first, None), second, k))
      == multiset(FilterEq(s, g, k))
  {
    var e := s[0];
    var n := FilterEq(s[1..], first, None);
    assert g(e) == second(e);
    assert FilterEq(s, first, None) == [e] + n;
    assert FilterEq(s, first, Some(k)) == FilterEq(s[1..], first, Some(k));
    assert ([e] + n)[0] == e && ([e] + n)[1..] == n;
    if second(e) == k {
      TwoPassUnplacedHere(s, first, second, g, k);
    } else {
      assert FilterEq([e] + n, second, k) == FilterEq(n, second, k);
      assert FilterEq(s, g, k) == FilterEq(s[1..], g, k);
    }
  }

  /** The step of `TwoPassFilter` for a first element that the second pass places in `k`. */
  lemma TwoPassUnplacedHere<T, K>(s: seq<T>, first: T -> Option<K>, second: T -> K, g: T -> K, k: K)
    requires s != [] && first(s[0]) == None && second(s[0]) == k && g(s[0]) == k
    requires FilterEq(s, first, None) == [s[0]] + FilterEq(s[1..], first, None)
    requires FilterEq(s, first, Some(k)) == FilterEq(s[1..], first, Some(k))
    requires multiset(FilterEq(s[1..], first, Some(k)) + FilterEq(FilterEq(s[1..], first, None), second, k))
        == multiset(FilterEq(s[1..], g, k))
    ensures multiset(FilterEq(s, first, Some(k)) + FilterEq(FilterEq(s, first, None), second, k))
      == multiset(FilterEq(s, g, k))
  {
    var e := s[0];
    var a := FilterEq(s[1..], first, Some(k));
    var n := FilterEq(s[1..], first, None);
    var b := FilterEq(n, second, k);
    assert ([e] + n)[0] == e && ([e] + n)[1..] == n;
    assert FilterEq([e] + n, second, k) == [e] + b;
    assert FilterEq(s, g, k) == [e] + FilterEq(s[1..], g, k);
    MultisetInsert(a, b, FilterEq(s[1..], g, k), e);
  }

  lemma MultisetCons<T>(a: seq<T>, b: seq<T>, c: seq<T>, e: T)
    requires multiset(a + b) == multiset(c)
    ensures multiset([e] + a + b) == multiset([e] + c)
  {
    assert [e] + a + b == [e] + (a + b);
  }

  lemma MultisetInsert<T>(a: seq<T>, b: seq<T>, c: seq<T>, e: T)
    requires multiset(a + b) == multiset(c)
    ensures multiset(a + ([e] + b)) == multiset([e] + c)
  {
    assert multiset(a + ([e] + b)) == multiset([e]) + multiset(a + b);
  }

  lemma {:induction false} TwoPassPlaced<T, K>(s: seq<T>, first: T -> Option<K>, second: T -> K, g: T -> K, k: K)
    requires forall x :: g(x) == if first(x).Some? then first(x).value else second(x)
    requires s != [] && first(s[0]).Some?
    requires multiset(FilterEq(s[1..], first, Some(k)) + FilterEq(FilterEq(s[1..], first, None), second, k))
        == multiset(FilterEq(s[1..], g, k))
    ensures multiset(FilterEq(s, first, Some(k)) + FilterEq(FilterEq(s, first, None), second, k))
      == multiset(FilterEq(s, g, k))
  {
    var e := s[0];
    assert g(e) == first(e).value;
    assert FilterEq(s, first, None) == FilterEq(s[1..], first, None);
    if first(e) == Some(k) {
      TwoPassPlacedHere(s, first, second, g, k);
    } else {
      assert FilterEq(s, first, Some(k)) == FilterEq(s[1..], first, Some(k));
      assert FilterEq(s, g, k) == FilterEq(s[1..], g, k);
    }
  }

  /** The step of `TwoPassFilter` for a first element that the first pass places in `k`. */
  lemma TwoPassPlacedHere<T, K>(s: seq<T>, first: T -> Option<K>, second: T -> K, g: T -> K, k: K)
    requires s != [] && first(s[0]) == Some(k) && g(s[0]) == k
    requires FilterEq(s, first, None) == FilterEq(s[1..], first, None)
    requires multiset(FilterEq(s[1..], first, Some(k)) + FilterEq(FilterEq(s[1..], first, None), second, k))
        == multiset(FilterEq(s[1..], g, k))
    ensures multiset(FilterEq(s, first, Some(k)) + FilterEq(FilterEq(s, first, None), second, k))
      == multiset(FilterEq(s, g, k))
  {
    var e := s[0];
    var a := FilterEq(s[1..], first, Some(k));
    var b := FilterEq(FilterEq(s[1..], first, None), second, k);
    var c := FilterEq(s[1..], g, k);
    assert FilterEq(s, first, Some(k)) == [e] + a;
    assert FilterEq(s, g, k) == [e] + c;
    MultisetCons(a, b, c, e);
  }

  /** The elements of `s` that satisfy `p`, in their original order. */
  function Filter<T>(s: seq<T>, p: T -> bool): (r: seq<T>)
    ensures |r| <= |s|
  {
    FilterEq(s, p, true)
  }

  /** `[f(x) for x in s]`. */
  function MapSeq<A, B>(s: seq<A>, f: A -> B): (r: seq<B>)
    ensures |r| == |s|
  {
    if s == [] then [] else MapSeq(s[..|s| - 1], f) + [f(s[|s| - 1])]
  }

  lemma {:induction false} MapSeqAt<A, B>(s: seq<A>, f: A -> B, i: nat)
    requires i < |s|
    ensures MapSeq(s, f)[i] == f(s[i])
  {
    if i < |s| - 1 {
      MapSeqAt(s[..|s| - 1], f, i);
    }
  }

  lemma {:induction false} InMapSeq<A, B>(s: seq<A>, f: A -> B, y: B)
    requires y in MapSeq(s, f)
    ensures exists k :: 0 <= k < |s| && y == f(s[k])
  {
    var n := |s|;
    if y == f(s[n - 1]) {
    } else {
      InMapSeq(s[..n - 1], f, y);
      var k :| 0 <= k < n - 1 && y == f(s[..n - 1][k]);
      assert s[..n - 1][k] == s[k];
    }
  }

  /** Concatenation of a list of lists. */
  function Flatten<T>(ss: seq<seq<T>>): seq<T> {
    if ss == [] then [] else ss[0] + Flatten(ss[1..])
  }

  lemma {:induction false} FlattenAppend<T>(a: seq<seq<T>>, b: seq<seq<T>>)
    ensures Flatten(a + b) == Flatten(a) + Flatten(b)
  {
    if a == [] {
      assert a + b == b;
    } else {
      assert (a + b)[0] == a[0];
      assert (a + b)[1..] == a[1..] + b;
      FlattenAppend(a[1..], b);
    }
  }

  /** Python's `sep.join(parts)`. */
  function Join(parts: seq<string>, sep: string): (r: string)
    ensures parts == [] ==> r == []
    ensures |parts| == 1 ==> r == parts[0]
  {
    if parts == [] then []
    else if |parts| == 1 then parts[0]
    else parts[0] + sep + Join(parts[1..], sep)
  }

  /** The first part opens the joined text. */
  lemma JoinPrefix(parts: seq<string>, sep: string)
    requires parts != []
    ensures |parts[0]| <= |Join(parts, sep)| && Join(parts, sep)[..|parts[0]|] == parts[0]
  {
    if |parts| > 1 {
      assert Join(parts, sep) == parts[0] + (sep + Join(parts[1..], sep));
    }
  }

  /** A joined text opens with its first two parts and the separator between them. */
  lemma JoinOpens(head: seq<string>, rest: seq<string>, sep: string)
    requires |head| >= 2
    ensures var o := head[0] + sep + head[1]; var r := Join(head + rest, sep);
      |o| <= |r| && r[..|o|] == o
  {
    var parts := head + rest;
    assert parts[0] == head[0] && parts[1..][0] == head[1];
    assert Join(parts, sep) == parts[0] + sep + Join(parts[1..], sep);
    JoinPrefix(parts[1..], sep);
  }

  lemma AppendAssoc<T>(a: seq<T>, b: seq<T>, c: seq<T>)
    ensures a + b + c == a + (b + c)
  {
  }

  // ---------------------------------------------------------------------------
  // Stable sorting.  Every `sort`/`sorted` of the engine orders by one or two
  // numbers (a single key k is written (k, 0.0)); Python's sort is stable.

  predicate KeyLe(a: (real, real), b: (real, real)) {
    a.0 < b.0 || (a.0 == b.0 && a.1 <= b.1)
  }

  predicate SortedBy<T>(s: seq<T>, key: T -> (real, real)) {
    forall i, j :: 0 <= i < j < |s| ==> KeyLe(key(s[i]), key(s[j]))
  }

  /** Inserts `x` in front of every element whose key is not smaller. */
  function Insert<T>(x: T, s: seq<T>, key: T -> (real, real)): (r: seq<T>)
    requires SortedBy(s, key)
    ensures SortedBy(r, key)
    ensures multiset(r) == multiset(s) + multiset{x}
    ensures |r| == |s| + 1
  {
    if s == [] || KeyLe(key(x), key(s[0])) then [x] + s
    else
      var t := Insert(x, s[1..], key);
      InsertBehind(x, s, t, key);
      [s[0]] + t
  }

  /** Putting the head of `s` in front of `x` inserted into the rest of `s`. */
  lemma InsertBehind<T>(x: T, s: seq<T>, t: seq<T>, key: T -> (real, real))
    requires s != [] && SortedBy(s, key) && !KeyLe(key(x), key(s[0]))
    requires SortedBy(t, key) && multiset(t) == multiset(s[1..]) + multiset{x}
    ensures SortedBy([s[0]] + t, key) && multiset([s[0]] + t) == multiset(s) + multiset{x}
  {
    assert s == [s[0]] + s[1..];
    forall y | y in t ensures KeyLe(key(s[0]), key(y)) {
      assert y in multiset(t);
      if y != x {
        var j :| 0 <= j < |s[1..]| && s[1..][j] == y;
        assert s[j + 1] == y;
      }
    }
    ConsSorted(s[0], t, key);
  }

  lemma ConsSorted<T>(h: T, t: seq<T>, key: T -> (real, real))
    requires SortedBy(t, key) && forall y :: y in t ==> KeyLe(key(h), key(y))
    ensures SortedBy([h] + t, key)
  {
    forall i, j | 0 <= i < j < |[h] + t| ensures KeyLe(key(([h] + t)[i]), key(([h] + t)[j])) {
      assert ([h] + t)[j] == t[j - 1];
      if i > 0 {
        assert ([h] + t)[i] == t[i - 1];
      } else {
        assert t[j - 1] in t;
      }
    }
  }

  /** Python's stable `sorted(s, key=key)`. */
  function SortBy<T>(s: seq<T>, key: T -> (real, real)): (r: seq<T>)
    ensures SortedBy(r, key)
    ensures multiset(r) == multiset(s)
    ensures |r| == |s|
  {
    if s == [] then [] else
      assert s == [s[0]] + s[1..];
      Insert(s[0], SortBy(s[1..], key), key)
  }

  lemma {:induction false} InsertStable<T>(x: T, s: seq<T>, key: T -> (real, real), k: (real, real))
    requires SortedBy(s, key)
    ensures FilterEq(Insert(x, s, key), key, k) == FilterEq([x], key, k) + FilterEq(s, key, k)
  {
    if s == [] || KeyLe(key(x), key(s[0])) {
      FilterEqAppend([x], s, key, k);
    } else {
      var t := Insert(x, s[1..], key);
      InsertStable(x, s[1..], key, k);
      FilterEqAppend([s[0]], t, key, k);
      FilterEqAppend([s[0]], s[1..], key, k);
      assert s == [s[0]] + s[1..];
      assert key(s[0]) != key(x);
    }
  }

  /** Stability: elements with equal keys keep their relative order. */
  lemma {:induction false} SortByStable<T>(s: seq<T>, key: T -> (real, real), k: (real, real))
    ensures FilterEq(SortBy(s, key), key, k) == FilterEq(s, key, k)
  {
    if s != [] {
      SortByStable(s[1..], key, k);
      InsertStable(s[0], SortBy(s[1..], key), key, k);
      FilterEqAppend([s[0]], s[1..], key, k);
      assert s == [s[0]] + s[1..];
    }
  }

  // ---------------------------------------------------------------------------
  // A set of floats that is later read through `sorted(...)` is kept as the
  // ascending list of its distinct members.

  predicate Increasing(s: seq<real>) {
    forall i, j :: 0 <= i < j < |s| ==> s[i] < s[j]
  }

  /** `s.add(x)` on a set kept as an ascending list of distinct reals. */
  function AddSorted(x: real, s: seq<real>): (r: seq<real>)
    requires Increasing(s)
    ensures Increasing(r)
    ensures forall y :: y in r <==> y == x || y in s
  {
    if s == [] then [x]
    else if x < s[0] then [x] + s
    else if x == s[0] then s
    else
      var t := AddSorted(x, s[1..]);
      assert forall y :: y in t ==> s[0] < y by {
        forall y | y in t ensures s[0] < y {
          if y != x {
            var j :| 0 <= j < |s[1..]| && s[1..][j] == y;
            assert s[j + 1] == y;
          }
        }
      }
      ConsIncreasing(s[0], t);
      [s[0]] + t
  }

  lemma ConsIncreasing(h: real, t: seq<real>)
    requires Increasing(t) && forall y :: y in t ==> h < y
    ensures Increasing([h] + t)
  {
    forall i, j | 0 <= i < j < |[h] + t| ensures ([h] + t)[i] < ([h] + t)[j] {
      assert ([h] + t)[j] == t[j - 1];
      if i > 0 {
        assert ([h] + t)[i] == t[i - 1];
      } else {
        assert t[j - 1] in t;
      }
    }
  }

  // ---------------------------------------------------------------------------
  // Partitioning: classifying every element by `f` and collecting one bucket per
  // class loses and duplicates nothing.

  function BucketSizes<T, K(==)>(s: seq<T>, f: T -> K, keys: seq<K>): nat {
    if keys == [] then 0 else |FilterEq(s, f, keys[0])| + BucketSizes(s, f, keys[1..])
  }

  predicate Distinct<K(==)>(keys: seq<K>) {
    forall i, j :: 0 <= i < j < |keys| ==> keys[i] != keys[j]
  }

  lemma {:induction false} BucketSizesCons<T, K>(x: T, s: seq<T>, f: T -> K, keys: seq<K>)
    requires Distinct(keys)
    ensures BucketSizes([x] + s, f, keys) == BucketSizes(s, f, keys) + (if f(x) in keys then 1 else 0)
  {
    if keys != [] {
      assert ([x] + s)[1..] == s;
      BucketSizesCons(x, s, f, keys[1..]);
      assert f(x) == keys[0] ==> f(x) !in keys[1..];
    }
  }

  /** When every element's class is one of the distinct keys, the buckets hold
      exactly as many elements as the input. */
  lemma {:induction false} PartitionCount<T, K>(s: seq<T>, f: T -> K, keys: seq<K>)
    requires Distinct(keys)
    requires forall x :: x in s ==> f(x) in keys
    ensures BucketSizes(s, f, keys) == |s|
  {
    if s == [] {
      EmptyBuckets(f, keys);
    } else {
      assert s == [s[0]] + s[1..];
      PartitionCount(s[1..], f, keys);
      BucketSizesCons(s[0], s[1..], f, keys);
    }
  }

  lemma {:induction false} EmptyBuckets<T, K>(f: T -> K, keys: seq<K>)
    ensures BucketSizes([], f, keys) == 0
  {
    if keys != [] {
      EmptyBuckets(f, keys[1..]);
    }
  }

  /** A non-empty sequence is its prefix followed by its last element. */
  lemma InitLast<T>(s: seq<T>)
    requires s != []
    ensures s == s[..|s| - 1] + [s[|s| - 1]]
  {
  }

  /** A suffix splits at any point inside it. */
  lemma SplitSuffix<T>(s: seq<T>, i: nat, e: nat)
    requires i <= e <= |s|
    ensures s[i..] == s[i..e] + s[e..]
  {
  }

  /** Removing the last element of `a` and an equal element of its permutation
      `b` leaves permutations of each other. */
  lemma RemoveMatching<T>(a: seq<T>, b: seq<T>, j: nat)
    requires multiset(a) == multiset(b) && a != [] && j < |b| && b[j] == a[|a| - 1]
    ensures multiset(a[..|a| - 1]) == multiset(b[..j] + b[j + 1..])
  {
    var x := b[j];
    assert a == a[..|a| - 1] + [x];
    assert b == b[..j] + [x] + b[j + 1..];
    assert multiset(a[..|a| - 1]) == multiset(a) - multiset{x};
    assert multiset(b[..j] + b[j + 1..]) == multiset(b) - multiset{x};
  }
}
