/**
 * Python's `sorted(xs, key=k)` and `sorted(xs, key=k, reverse=True)`: a stable sort
 * under a total preorder `le` ("may come before"). Descending order by a key `k` is
 * `le(a, b) == (k(a) >= k(b))`; stability keeps equal elements in input order.
 */
module Sorting {

  ghost predicate Total<T(!new)>(le: (T, T) -> bool) {
    forall a, b :: le(a, b) || le(b, a)
  }

  ghost predicate Transitive<T(!new)>(le: (T, T) -> bool) {
    forall a, b, c :: le(a, b) && le(b, c) ==> le(a, c)
  }

  ghost predicate SortedBy<T>(s: seq<T>, le: (T, T) -> bool) {
    forall i, j :: 0 <= i < j < |s| ==> le(s[i], s[j])
  }

  /**
   * `sorted(xs, key=key, reverse=True)`: `a` may come before `b` when its key is not
   * smaller; with the stable sort, elements with equal keys keep their input order.
   */
  function ByKeyDesc<T>(key: T -> real): (T, T) -> bool {
    (a: T, b: T) => key(a) >= key(b)
  }

  lemma ByKeyDescIsPreorder<T(!new)>(key: T -> real)
    ensures Total(ByKeyDesc(key)) && Transitive(ByKeyDesc(key))
  {
  }

  /** `sorted(xs, key=key)` / `xs.sort(key=key)`: ascending order of the key. */
  function ByKeyAsc<T>(key: T -> real): (T, T) -> bool {
    (a: T, b: T) => key(a) <= key(b)
  }

  lemma ByKeyAscIsPreorder<T(!new)>(key: T -> real)
    ensures Total(ByKeyAsc(key)) && Transitive(ByKeyAsc(key))
  {
  }

  /** Inserts `x` in front of the first element it may precede. */
  function Insert<T>(x: T, s: seq<T>, le: (T, T) -> bool): (r: seq<T>)
    ensures |r| == |s| + 1
    ensures multiset(r) == multiset(s) + multiset{x}
  {
    if s == [] then [x]
    else if le(x, s[0]) then [x] + s
    else
      assert s == [s[0]] + s[1..];
      [s[0]] + Insert(x, s[1..], le)
  }

  /** Insertion sort: the first element goes in front of every element equal to it. */
  function SortBy<T>(s: seq<T>, le: (T, T) -> bool): (r: seq<T>)
    ensures |r| == |s|
    ensures multiset(r) == multiset(s)
  {
    if s == [] then []
    else
      assert s == [s[0]] + s[1..];
      Insert(s[0], SortBy(s[1..], le), le)
  }

  lemma {:induction false} InsertSorted<T(!new)>(x: T, s: seq<T>, le: (T, T) -> bool)
    requires Total(le) && Transitive(le)
    requires SortedBy(s, le)
    ensures SortedBy(Insert(x, s, le), le)
  {
    if s != [] && !le(x, s[0]) {
      InsertSorted(x, s[1..], le);
      var t := Insert(x, s[1..], le);
      assert multiset(t) == multiset(s[1..]) + multiset{x};
      forall j | 0 <= j < |t| ensures le(s[0], t[j]) {
        assert t[j] in multiset(t);
        assert t[j] == x || t[j] in multiset(s[1..]);
        if t[j] != x {
          assert t[j] in s[1..];
        }
      }
    }
  }

  /** The result of `SortBy` is ordered by `le` and is a permutation of the input. */
  lemma {:induction false} SortBySorted<T(!new)>(s: seq<T>, le: (T, T) -> bool)
    requires Total(le) && Transitive(le)
    ensures SortedBy(SortBy(s, le), le)
    ensures multiset(SortBy(s, le)) == multiset(s)
  {
    if s != [] {
      SortBySorted(s[1..], le);
      InsertSorted(s[0], SortBy(s[1..], le), le);
    }
  }

  /** The elements of `s` that tie with `x` (each may come before the other), in their order in `s`. */
  function Ties<T>(s: seq<T>, x: T, le: (T, T) -> bool): (r: seq<T>)
    ensures |r| <= |s|
  {
    if s == [] then []
    else (if le(x, s[0]) && le(s[0], x) then [s[0]] else []) + Ties(s[1..], x, le)
  }

  /** The ties of a sequence with a first element `h` are `h`'s own tie, if any, then those of the rest. */
  lemma TiesCons<T>(h: T, t: seq<T>, x: T, le: (T, T) -> bool)
    ensures Ties([h] + t, x, le) == (if le(x, h) && le(h, x) then [h] else []) + Ties(t, x, le)
  {
    assert ([h] + t)[0] == h && ([h] + t)[1..] == t;
  }

  /**
   * Insertion puts `a` in front of every element that ties with it: among the elements
   * tying with `x`, `a` (when it ties too) comes first and the others keep their order.
   */
  lemma {:induction false} InsertKeepsTies<T(!new)>(a: T, t: seq<T>, x: T, le: (T, T) -> bool)
    requires Transitive(le)
    ensures Ties(Insert(a, t, le), x, le) == (if le(x, a) && le(a, x) then [a] else []) + Ties(t, x, le)
  {
    if t == [] {
      TiesCons(a, [], x, le);
    } else if le(a, t[0]) {
      TiesCons(a, t, x, le);
    } else {
      var b, u := t[0], Insert(a, t[1..], le);
      assert Insert(a, t, le) == [b] + u;
      InsertKeepsTies(a, t[1..], x, le);
      TiesCons(t[0], u, x, le);
      TiesCons(t[0], t[1..], x, le);
      assert t == [t[0]] + t[1..];
      var ta := if le(x, a) && le(a, x) then [a] else [];
      var t0 := if le(x, t[0]) && le(t[0], x) then [t[0]] else [];
      var rest := Ties(t[1..], x, le);
      assert Ties(Insert(a, t, le), x, le) == t0 + (ta + rest);
      if ta == [] {
        assert ta + (t0 + rest) == t0 + rest;
      } else {
        assert le(a, x) && le(x, b) ==> le(a, b);
        assert t0 == [];
        assert t0 + (ta + rest) == ta + rest && t0 + rest == rest;
      }
    }
  }

  /**
   * `sorted` is stable: the elements that tie with any `x` appear in the sorted sequence
   * in the same order as in the input.
   */
  lemma {:induction false} SortByIsStable<T(!new)>(s: seq<T>, x: T, le: (T, T) -> bool)
    requires Transitive(le)
    ensures Ties(SortBy(s, le), x, le) == Ties(s, x, le)
  {
    if s != [] {
      SortByIsStable(s[1..], x, le);
      InsertKeepsTies(s[0], SortBy(s[1..], le), x, le);
    }
  }

  /** The head after an insertion is `x` when it may precede the old head, and the old head otherwise. */
  lemma InsertHead<T>(x: T, s: seq<T>, le: (T, T) -> bool)
    ensures Insert(x, s, le)[0] == if s == [] || le(x, s[0]) then x else s[0]
  {
  }

  /**
   * The head of the sorted sequence is a least element, and no element before it in
   * the input is as small: the first minimum wins.
   */
  lemma {:induction false} SortByHeadIsFirstMinimum<T(!new)>(s: seq<T>, le: (T, T) -> bool) returns (p: nat)
    requires Total(le) && Transitive(le)
    requires s != []
    ensures p < |s| && SortBy(s, le)[0] == s[p]
    ensures forall k :: 0 <= k < |s| ==> le(s[p], s[k])
    ensures forall k :: 0 <= k < p ==> !le(s[k], s[p])
  {
    if |s| == 1 {
      p := 0;
    } else {
      var tail := s[1..];
      var rest := SortBy(tail, le);
      var q := SortByHeadIsFirstMinimum(tail, le);
      InsertHead(s[0], rest, le);
      assert SortBy(s, le) == Insert(s[0], rest, le);
      if le(s[0], tail[q]) {
        p := 0;
        HeadBeforeTailMinimum(s, le, q);
      } else {
        p := q + 1;
        TailMinimumFirst(s, le, q);
      }
    }
  }

  /** When the first element may precede the tail's least element `s[q + 1]`, it is least itself. */
  lemma HeadBeforeTailMinimum<T(!new)>(s: seq<T>, le: (T, T) -> bool, q: nat)
    requires Total(le) && Transitive(le) && |s| >= 2 && q < |s| - 1
    requires forall k :: 0 <= k < |s| - 1 ==> le(s[1..][q], s[1..][k])
    requires le(s[0], s[1..][q])
    ensures forall k :: 0 <= k < |s| ==> le(s[0], s[k])
  {
    forall k | 0 < k < |s| ensures le(s[0], s[k]) {
      assert s[k] == s[1..][k - 1];
      assert le(s[1..][q], s[1..][k - 1]);
    }
  }

  /** When the first element may not precede the tail's least element `s[q + 1]`, that one is least and comes first among the least. */
  lemma TailMinimumFirst<T(!new)>(s: seq<T>, le: (T, T) -> bool, q: nat)
    requires Total(le) && |s| >= 2 && q < |s| - 1
    requires forall k :: 0 <= k < |s| - 1 ==> le(s[1..][q], s[1..][k])
    requires forall k :: 0 <= k < q ==> !le(s[1..][k], s[1..][q])
    requires !le(s[0], s[1..][q])
    ensures forall k :: 0 <= k < |s| ==> le(s[q + 1], s[k])
    ensures forall k :: 0 <= k < q + 1 ==> !le(s[k], s[q + 1])
  {
    assert s[q + 1] == s[1..][q];
    assert le(s[0], s[q + 1]) || le(s[q + 1], s[0]);
    forall k | 0 < k < |s| ensures le(s[q + 1], s[k]) {
      assert s[k] == s[1..][k - 1];
    }
    forall k | 0 < k < q + 1 ensures !le(s[k], s[q + 1]) {
      assert s[k] == s[1..][k - 1];
    }
  }

  /** The indices 0 .. n-1 in increasing order, the value of Python's `range(n)`. */
  function Range(n: nat): (r: seq<nat>)
    ensures |r| == n
    ensures forall i :: 0 <= i < n ==> r[i] == i
  {
    if n == 0 then [] else Range(n - 1) + [n - 1]
  }

  /** A sequence that holds every index below `n` once. */
  ghost predicate IsPermutationOfRange(s: seq<nat>, n: nat) {
    |s| == n &&
    (forall i :: 0 <= i < n ==> s[i] < n) &&
    (forall i, j :: 0 <= i < j < n ==> s[i] != s[j])
  }

  lemma {:induction false} SortedRangeIsPermutation(n: nat, le: (nat, nat) -> bool)
    ensures IsPermutationOfRange(SortBy(Range(n), le), n)
    ensures forall v: nat :: v < n ==> v in SortBy(Range(n), le)
  {
    var r := SortBy(Range(n), le);
    assert multiset(r) == multiset(Range(n));
    forall i | 0 <= i < n ensures r[i] < n {
      assert r[i] in multiset(Range(n));
    }
    forall i, j | 0 <= i < j < n ensures r[i] != r[j] {
      if r[i] == r[j] {
        RangeCountsOnce(n, r[i]);
        MultisetCountTwo(r, i, j);
      }
    }
    forall v: nat | v < n ensures v in r {
      assert Range(n)[v] == v;
      assert v in multiset(Range(n));
    }
  }

  lemma {:induction false} RangeCountsOnce(n: nat, v: nat)
    ensures multiset(Range(n))[v] <= 1
  {
    if n > 0 {
      RangeCountsOnce(n - 1, v);
      assert Range(n) == Range(n - 1) + [n - 1];
      if v == n - 1 {
        assert v !in Range(n - 1);
      }
    }
  }

  lemma {:induction false} MultisetCountTwo<T>(s: seq<T>, i: nat, j: nat)
    requires i < j < |s| && s[i] == s[j]
    ensures multiset(s)[s[i]] >= 2
  {
    assert s == s[..i] + [s[i]] + s[i + 1..j] + [s[j]] + s[j + 1..];
  }
}
