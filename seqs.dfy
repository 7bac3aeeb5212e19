/**
 * Sequence helpers shared by the scoring engine and the report renderers:
 * filtering, mapping, flattening, counting, truncation and the stable sort
 * that Python's `list.sort` and `sorted` perform.
 *
 * Recursive definitions peel off the LAST element, so that a loop which
 * appends to a list matches them step by step (`Filter(s[..i+1])` unfolds to
 * `Filter(s[..i]) + ...`).
 */
module Seqs {

  function Filter<T>(s: seq<T>, p: T -> bool): (r: seq<T>)
    ensures |r| <= |s|
    ensures forall x :: x in r ==> x in s && p(x)
    decreases |s|
  {
    if |s| == 0 then []
    else Filter(s[..|s| - 1], p) + (if p(s[|s| - 1]) then [s[|s| - 1]] else [])
  }

  function Map<T, U>(s: seq<T>, f: T -> U): (r: seq<U>)
    ensures |r| == |s|
    ensures forall i :: 0 <= i < |s| ==> r[i] == f(s[i])
  {
    seq(|s|, i requires 0 <= i < |s| => f(s[i]))
  }

  function Flatten<T>(ss: seq<seq<T>>): (r: seq<T>)
    decreases |ss|
  {
    if |ss| == 0 then [] else Flatten(ss[..|ss| - 1]) + ss[|ss| - 1]
  }

  function Count<T>(s: seq<T>, p: T -> bool): nat
  {
    |Filter(s, p)|
  }

  function Sum(s: seq<nat>): nat
    decreases |s|
  {
    if |s| == 0 then 0 else Sum(s[..|s| - 1]) + s[|s| - 1]
  }

  /** Python's `s[:n]`. */
  function Take<T>(s: seq<T>, n: nat): (r: seq<T>)
    ensures |r| <= n && |r| <= |s|
    ensures |r| == if n < |s| then n else |s|
    ensures r == s[..|r|]
  {
    if n < |s| then s[..n] else s
  }

  predicate Distinct<T(==)>(s: seq<T>)
  {
    forall i, j :: 0 <= i < j < |s| ==> s[i] != s[j]
  }

  lemma {:induction false} FilterAppend<T>(a: seq<T>, b: seq<T>, p: T -> bool)
    ensures Filter(a + b, p) == Filter(a, p) + Filter(b, p)
    decreases |b|
  {
    if |b| == 0 {
      assert a + b == a;
    } else {
      var b' := b[..|b| - 1];
      assert (a + b)[..|a + b| - 1] == a + b';
      FilterAppend(a, b', p);
    }
  }

  lemma FilterSnoc<T>(s: seq<T>, x: T, p: T -> bool)
    ensures Filter(s + [x], p) == Filter(s, p) + (if p(x) then [x] else [])
  {
    assert (s + [x])[..|s|] == s;
  }

  lemma FlattenSnoc<T>(ss: seq<seq<T>>, t: seq<T>)
    ensures Flatten(ss + [t]) == Flatten(ss) + t
  {
    assert (ss + [t])[..|ss|] == ss;
  }

  lemma PrefixSnoc<T>(s: seq<T>, i: nat)
    requires i < |s|
    ensures s[..i + 1] == s[..i] + [s[i]]
  {
  }

  lemma MapSnoc<T, U>(s: seq<T>, x: T, f: T -> U)
    ensures Map(s + [x], f) == Map(s, f) + [f(x)]
  {
  }

  lemma MapAppend<T, U>(a: seq<T>, b: seq<T>, f: T -> U)
    ensures Map(a + b, f) == Map(a, f) + Map(b, f)
  {
  }

  lemma SumSnoc(s: seq<nat>, x: nat)
    ensures Sum(s + [x]) == Sum(s) + x
  {
    assert (s + [x])[..|s|] == s;
  }

  lemma {:induction false} FilterPreservesDistinct<T>(s: seq<T>, p: T -> bool)
    requires Distinct(s)
    ensures Distinct(Filter(s, p))
    decreases |s|
  {
    if |s| > 0 {
      var init := s[..|s| - 1];
      FilterPreservesDistinct(init, p);
      assert s[|s| - 1] !in init;
    }
  }

  /** An element is kept by Filter exactly when it occurs in the input and satisfies p. */
  lemma {:induction false} FilterMember<T>(s: seq<T>, p: T -> bool, x: T)
    ensures x in Filter(s, p) <==> x in s && p(x)
    decreases |s|
  {
    if |s| > 0 {
      var init := s[..|s| - 1];
      FilterMember(init, p, x);
      assert s == init + [s[|s| - 1]];
    }
  }

  /** Filtering twice with the same predicate changes nothing. */
  lemma {:induction false} FilterIdempotent<T>(s: seq<T>, p: T -> bool)
    ensures Filter(Filter(s, p), p) == Filter(s, p)
    decreases |s|
  {
    if |s| > 0 {
      var init := s[..|s| - 1];
      FilterIdempotent(init, p);
      FilterAppend(Filter(init, p), if p(s[|s| - 1]) then [s[|s| - 1]] else [], p);
      if p(s[|s| - 1]) {
        FilterSnoc([], s[|s| - 1], p);
      }
    }
  }

  /** Filtering keeps the input order: kept elements appear at increasing positions. */
  lemma {:induction false} FilterKeepsOrder<T>(s: seq<T>, p: T -> bool, rank: T -> int)
    requires forall i, j :: 0 <= i < j < |s| ==> rank(s[i]) < rank(s[j])
    ensures forall i, j :: 0 <= i < j < |Filter(s, p)| ==> rank(Filter(s, p)[i]) < rank(Filter(s, p)[j])
    decreases |s|
  {
    if |s| > 0 {
      var init := s[..|s| - 1];
      var last := s[|s| - 1];
      FilterKeepsOrder(init, p, rank);
      forall x | x in Filter(init, p) ensures rank(x) < rank(last) {
        var k :| 0 <= k < |init| && init[k] == x;
      }
    }
  }

  lemma {:induction false} CountAppend<T>(a: seq<T>, b: seq<T>, p: T -> bool)
    ensures Count(a + b, p) == Count(a, p) + Count(b, p)
  {
    FilterAppend(a, b, p);
  }

  /** Elements satisfying p and elements not satisfying p together account for the whole input. */
  lemma {:induction false} CountSplit<T>(s: seq<T>, p: T -> bool, q: T -> bool)
    requires forall x :: q(x) <==> !p(x)
    ensures Count(s, p) + Count(s, q) == |s|
    decreases |s|
  {
    if |s| > 0 {
      CountSplit(s[..|s| - 1], p, q);
    }
  }

  lemma {:induction false} CountMonotone<T>(s: seq<T>, p: T -> bool, q: T -> bool)
    requires forall x :: p(x) ==> q(x)
    ensures Count(s, p) <= Count(s, q)
    decreases |s|
  {
    if |s| > 0 {
      CountMonotone(s[..|s| - 1], p, q);
    }
  }

  /** An element of a flattened sequence sits at some position of some part. */
  lemma {:induction false} FlattenMember<T>(ss: seq<seq<T>>, x: T) returns (i: nat, j: nat)
    requires x in Flatten(ss)
    ensures i < |ss| && j < |ss[i]| && ss[i][j] == x
    decreases |ss|
  {
    var init := ss[..|ss| - 1];
    var last := ss[|ss| - 1];
    if x in Flatten(init) {
      i, j := FlattenMember(init, x);
    } else {
      var k :| 0 <= k < |last| && last[k] == x;
      i, j := |ss| - 1, k;
    }
  }

  /** Each element of each part occurs in the flattened sequence. */
  lemma {:induction false} FlattenContains<T>(ss: seq<seq<T>>, i: nat, j: nat)
    requires i < |ss| && j < |ss[i]|
    ensures ss[i][j] in Flatten(ss)
    decreases |ss|
  {
    var init := ss[..|ss| - 1];
    if i < |ss| - 1 {
      FlattenContains(init, i, j);
      assert init[i] == ss[i];
    } else {
      assert Flatten(ss) == Flatten(init) + ss[i];
      assert (Flatten(init) + ss[i])[|Flatten(init)| + j] == ss[i][j];
    }
  }

  lemma {:induction false} FlattenAppend<T>(a: seq<seq<T>>, b: seq<seq<T>>)
    ensures Flatten(a + b) == Flatten(a) + Flatten(b)
    decreases |b|
  {
    if |b| == 0 {
      assert a + b == a;
    } else {
      var b' := b[..|b| - 1];
      assert (a + b)[..|a + b| - 1] == a + b';
      FlattenAppend(a, b');
    }
  }

  // ---------------------------------------------------------------------
  // Stable sort by an integer key (Python's `list.sort(key=...)`, which is
  // guaranteed stable; `reverse=True` is the same sort on the negated key).
  // ---------------------------------------------------------------------

  predicate SortedBy<T>(s: seq<T>, key: T -> int)
  {
    forall i, j :: 0 <= i < j < |s| ==> key(s[i]) <= key(s[j])
  }

  /** Places x after every element whose key is at most key(x). */
  function Insert<T>(t: seq<T>, x: T, key: T -> int): (r: seq<T>)
    decreases |t|
  {
    if |t| == 0 then [x]
    else if key(t[|t| - 1]) <= key(x) then t + [x]
    else Insert(t[..|t| - 1], x, key) + [t[|t| - 1]]
  }

  /** Insertion sort; the specification of Python's stable `sort`. */
  function StableSort<T>(s: seq<T>, key: T -> int): seq<T>
    decreases |s|
  {
    if |s| == 0 then [] else Insert(StableSort(s[..|s| - 1], key), s[|s| - 1], key)
  }

  /** The elements of s whose key is v, in their order in s. */
  function WithKey<T>(s: seq<T>, key: T -> int, v: int): seq<T>
  {
    Filter(s, e => key(e) == v)
  }

  lemma WithKeySnoc<T>(s: seq<T>, x: T, key: T -> int, v: int)
    ensures WithKey(s + [x], key, v) == WithKey(s, key, v) + (if key(x) == v then [x] else [])
  {
    FilterSnoc(s, x, e => key(e) == v);
  }

  lemma {:induction false} InsertPermutes<T>(t: seq<T>, x: T, key: T -> int)
    ensures multiset(Insert(t, x, key)) == multiset(t) + multiset{x}
    decreases |t|
  {
    if |t| > 0 && key(t[|t| - 1]) > key(x) {
      var init := t[..|t| - 1];
      assert t == init + [t[|t| - 1]];
      InsertPermutes(init, x, key);
    }
  }

  lemma {:induction false} InsertSorted<T>(t: seq<T>, x: T, key: T -> int)
    requires SortedBy(t, key)
    ensures SortedBy(Insert(t, x, key), key)
    decreases |t|
  {
    if |t| > 0 && key(t[|t| - 1]) > key(x) {
      var init := t[..|t| - 1];
      var last := t[|t| - 1];
      assert t == init + [last];
      InsertSorted(init, x, key);
      InsertPermutes(init, x, key);
      var r := Insert(init, x, key);
      forall i | 0 <= i < |r| ensures key(r[i]) <= key(last) {
        var e := r[i];
        assert e in multiset(r);
        if e != x {
          assert e in multiset(init);
          var k :| 0 <= k < |init| && init[k] == e;
          assert key(t[k]) <= key(t[|t| - 1]);
        }
      }
    }
  }

  lemma {:induction false} InsertStable<T>(t: seq<T>, x: T, key: T -> int, v: int)
    ensures WithKey(Insert(t, x, key), key, v) == WithKey(t, key, v) + (if key(x) == v then [x] else [])
    decreases |t|
  {
    if |t| == 0 {
      WithKeySnoc([], x, key, v);
    } else if key(t[|t| - 1]) <= key(x) {
      WithKeySnoc(t, x, key, v);
    } else {
      var init := t[..|t| - 1];
      var last := t[|t| - 1];
      var r := Insert(init, x, key);
      var xs: seq<T> := if key(x) == v then [x] else [];
      var ls: seq<T> := if key(last) == v then [last] else [];
      assert t == init + [last];
      assert Insert(t, x, key) == r + [last];
      InsertStable(init, x, key, v);
      assert WithKey(r, key, v) == WithKey(init, key, v) + xs;
      WithKeySnoc(r, last, key, v);
      assert WithKey(r + [last], key, v) == WithKey(r, key, v) + ls;
      WithKeySnoc(init, last, key, v);
      assert WithKey(t, key, v) == WithKey(init, key, v) + ls;
      // last has a larger key than x, so at most one of the two is kept
      assert xs == [] || ls == [];
    }
  }

  /**
   * The stable sort orders by key, is a permutation of its input, and keeps
   * the relative order of elements with equal keys (which determines the
   * result uniquely).
   */
  lemma {:induction false} StableSortFacts<T>(s: seq<T>, key: T -> int)
    ensures SortedBy(StableSort(s, key), key)
    ensures multiset(StableSort(s, key)) == multiset(s)
    ensures |StableSort(s, key)| == |s|
    ensures forall v :: WithKey(StableSort(s, key), key, v) == WithKey(s, key, v)
  {
    StableSortSorted(s, key);
    StableSortPermutes(s, key);
    assert |StableSort(s, key)| == |multiset(StableSort(s, key))| == |multiset(s)| == |s|;
    forall v ensures WithKey(StableSort(s, key), key, v) == WithKey(s, key, v) {
      StableSortStable(s, key, v);
    }
  }

  lemma {:induction false} StableSortPermutes<T>(s: seq<T>, key: T -> int)
    ensures multiset(StableSort(s, key)) == multiset(s)
    decreases |s|
  {
    if |s| > 0 {
      var init := s[..|s| - 1];
      StableSortPermutes(init, key);
      InsertPermutes(StableSort(init, key), s[|s| - 1], key);
      assert s == init + [s[|s| - 1]];
    }
  }

  lemma {:induction false} StableSortSorted<T>(s: seq<T>, key: T -> int)
    ensures SortedBy(StableSort(s, key), key)
    decreases |s|
  {
    if |s| > 0 {
      var init := s[..|s| - 1];
      StableSortSorted(init, key);
      InsertSorted(StableSort(init, key), s[|s| - 1], key);
    }
  }

  lemma {:induction false} StableSortStable<T>(s: seq<T>, key: T -> int, v: int)
    ensures WithKey(StableSort(s, key), key, v) == WithKey(s, key, v)
    decreases |s|
  {
    if |s| > 0 {
      var init := s[..|s| - 1];
      var last := s[|s| - 1];
      StableSortStable(init, key, v);
      InsertStable(StableSort(init, key), last, key, v);
      WithKeySnoc(init, last, key, v);
      assert s == init + [last];
    }
  }

  /** The mapped key agrees with the original key on every element of s. */
  ghost predicate KeysAgree<T, U>(s: seq<T>, f: T -> U, key: T -> int, keyOf: U -> int)
  {
    forall y :: y in s ==> keyOf(f(y)) == key(y)
  }

  lemma KeysAgreeInit<T, U>(s: seq<T>, f: T -> U, key: T -> int, keyOf: U -> int)
    requires |s| > 0 && KeysAgree(s, f, key, keyOf)
    ensures KeysAgree(s[..|s| - 1], f, key, keyOf)
    ensures keyOf(f(s[|s| - 1])) == key(s[|s| - 1])
  {
    assert forall y :: y in s[..|s| - 1] ==> y in s;
  }

  lemma KeysAgreeSorted<T, U>(s: seq<T>, f: T -> U, key: T -> int, keyOf: U -> int)
    requires KeysAgree(s, f, key, keyOf)
    ensures KeysAgree(StableSort(s, key), f, key, keyOf)
  {
    forall y | y in StableSort(s, key) ensures keyOf(f(y)) == key(y) {
      SortedMember(s, key, y);
    }
  }

  /** Inserting commutes with a map that carries the sort key over. */
  lemma {:induction false} InsertMap<T, U>(t: seq<T>, x: T, f: T -> U, key: T -> int, keyOf: U -> int)
    requires KeysAgree(t, f, key, keyOf)
    requires keyOf(f(x)) == key(x)
    ensures Map(Insert(t, x, key), f) == Insert(Map(t, f), f(x), keyOf)
    decreases |t|
  {
    if |t| > 0 {
      var init := t[..|t| - 1];
      var last := t[|t| - 1];
      KeysAgreeInit(t, f, key, keyOf);
      assert Map(t, f)[..|t| - 1] == Map(init, f);
      if key(last) > key(x) {
        InsertMap(init, x, f, key, keyOf);
        MapSnoc(Insert(init, x, key), last, f);
      } else {
        MapSnoc(t, x, f);
      }
    }
  }

  /** The sort invents no elements. */
  lemma SortedMember<T>(s: seq<T>, key: T -> int, y: T)
    requires y in StableSort(s, key)
    ensures y in s
  {
    StableSortPermutes(s, key);
    assert y in multiset(StableSort(s, key));
  }

  /**
   * Sorting and then mapping equals mapping and then sorting, when the
   * mapped key agrees with the original key on every element.
   */
  lemma {:induction false} SortMap<T, U>(s: seq<T>, f: T -> U, key: T -> int, keyOf: U -> int)
    requires KeysAgree(s, f, key, keyOf)
    ensures Map(StableSort(s, key), f) == StableSort(Map(s, f), keyOf)
    decreases |s|
  {
    if |s| > 0 {
      var init := s[..|s| - 1];
      var last := s[|s| - 1];
      KeysAgreeInit(s, f, key, keyOf);
      SortMap(init, f, key, keyOf);
      KeysAgreeSorted(init, f, key, keyOf);
      InsertMap(StableSort(init, key), last, f, key, keyOf);
      assert Map(s, f)[..|s| - 1] == Map(init, f);
      assert Map(s, f)[|s| - 1] == f(last);
    }
  }

  // ---------------------------------------------------------------------
  // Lexicographic order on strings (Python's `<` on `str`, by code point).
  // ---------------------------------------------------------------------

  predicate LexLe(a: string, b: string)
    decreases |a|
  {
    |a| == 0 || (|b| > 0 && (a[0] < b[0] || (a[0] == b[0] && LexLe(a[1..], b[1..]))))
  }

  lemma {:induction false} LexLeTotal(a: string, b: string)
    ensures LexLe(a, b) || LexLe(b, a)
    decreases |a|
  {
    if |a| > 0 && |b| > 0 && a[0] == b[0] {
      LexLeTotal(a[1..], b[1..]);
    }
  }

  lemma {:induction false} LexLeTrans(a: string, b: string, c: string)
    requires LexLe(a, b) && LexLe(b, c)
    ensures LexLe(a, c)
    decreases |a|
  {
    if |a| > 0 && a[0] == b[0] && b[0] == c[0] {
      LexLeTrans(a[1..], b[1..], c[1..]);
    }
  }

  lemma {:induction false} LexLeAntisym(a: string, b: string)
    requires LexLe(a, b) && LexLe(b, a)
    ensures a == b
    decreases |a|
  {
    if |a| > 0 {
      LexLeAntisym(a[1..], b[1..]);
      assert a == [a[0]] + a[1..] && b == [b[0]] + b[1..];
    }
  }

  predicate LexSorted(s: seq<string>)
  {
    forall i, j :: 0 <= i < j < |s| ==> LexLe(s[i], s[j])
  }

  function InsertName(t: seq<string>, x: string): seq<string>
    decreases |t|
  {
    if |t| == 0 then [x]
    else if LexLe(t[|t| - 1], x) then t + [x]
    else InsertName(t[..|t| - 1], x) + [t[|t| - 1]]
  }

  /** Python's `sorted` over the names of a directory listing. */
  function SortNames(s: seq<string>): seq<string>
    decreases |s|
  {
    if |s| == 0 then [] else InsertName(SortNames(s[..|s| - 1]), s[|s| - 1])
  }

  lemma {:induction false} InsertNamePermutes(t: seq<string>, x: string)
    ensures multiset(InsertName(t, x)) == multiset(t) + multiset{x}
    decreases |t|
  {
    if |t| > 0 && !LexLe(t[|t| - 1], x) {
      var init := t[..|t| - 1];
      assert t == init + [t[|t| - 1]];
      InsertNamePermutes(init, x);
    }
  }

  /** A sorted list stays sorted when an element no smaller than any of its own is appended. */
  lemma SortedSnoc(r: seq<string>, y: string)
    requires LexSorted(r) && forall i :: 0 <= i < |r| ==> LexLe(r[i], y)
    ensures LexSorted(r + [y])
  {
    forall i, j | 0 <= i < j < |r + [y]| ensures LexLe((r + [y])[i], (r + [y])[j]) {
      if j < |r| {
        assert (r + [y])[i] == r[i] && (r + [y])[j] == r[j];
      }
    }
  }

  lemma {:induction false} InsertNameSorted(t: seq<string>, x: string)
    requires LexSorted(t)
    ensures LexSorted(InsertName(t, x))
    decreases |t|
  {
    if |t| > 0 && !LexLe(t[|t| - 1], x) {
      var init := t[..|t| - 1];
      var last := t[|t| - 1];
      assert t == init + [last];
      InsertNameSorted(init, x);
      InsertNamePermutes(init, x);
      var r := InsertName(init, x);
      LexLeTotal(last, x);
      forall i | 0 <= i < |r| ensures LexLe(r[i], last) {
        var e := r[i];
        assert e in multiset(r);
        if e != x {
          assert e in multiset(init);
          var k :| 0 <= k < |init| && init[k] == e;
          assert LexLe(t[k], t[|t| - 1]);
        }
      }
      SortedSnoc(r, last);
    } else if |t| > 0 {
      forall i | 0 <= i < |t| ensures LexLe(t[i], x) {
        if i < |t| - 1 {
          LexLeTrans(t[i], t[|t| - 1], x);
        }
      }
      SortedSnoc(t, x);
    }
  }

  /** The names come out in lexicographic order and none is lost or added. */
  lemma {:induction false} SortNamesFacts(s: seq<string>)
    ensures LexSorted(SortNames(s))
    ensures multiset(SortNames(s)) == multiset(s)
    decreases |s|
  {
    if |s| > 0 {
      var init := s[..|s| - 1];
      SortNamesFacts(init);
      InsertNameSorted(SortNames(init), s[|s| - 1]);
      InsertNamePermutes(SortNames(init), s[|s| - 1]);
      assert s == init + [s[|s| - 1]];
    }
  }
}
