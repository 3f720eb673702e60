/** Sequence helpers shared by the registry, the header parsing and the
    storage queries: prefix stripping, occurrence counting, repetition,
    filtering and ordering by an integer key (the `ORDER BY` of the SQL
    queries). */
module Seqs {
  import opened Wrappers

  /** The rest of `s` after the prefix `p`, or `None` when `s` does not start
      with `p` (Rust's `strip_prefix`). */
  function StripPrefix<T(==)>(s: seq<T>, p: seq<T>): (r: Option<seq<T>>)
    ensures r.Some? <==> p <= s
    ensures r.Some? ==> s == p + r.value
  {
    if p <= s then Some(s[|p|..]) else None
  }

  lemma StripPrefixRoundTrip<T>(p: seq<T>, rest: seq<T>)
    ensures StripPrefix(p + rest, p) == Some(rest)
  {
    assert (p + rest)[|p|..] == rest;
  }

  /** Number of occurrences of `x` in `s`. */
  function Count<T(==)>(s: seq<T>, x: T): (n: nat)
    ensures n <= |s|
    ensures n == 0 <==> x !in s
  {
    if |s| == 0 then 0 else (if s[0] == x then 1 else 0) + Count(s[1..], x)
  }

  lemma {:induction false} CountAppend<T>(a: seq<T>, b: seq<T>, x: T)
    ensures Count(a + b, x) == Count(a, x) + Count(b, x)
  {
    if |a| == 0 {
      assert a + b == b;
    } else {
      assert (a + b)[1..] == a[1..] + b;
      CountAppend(a[1..], b, x);
    }
  }

  /** `n` copies of `x`. */
  function Repeat<T>(x: T, n: nat): (r: seq<T>)
    ensures |r| == n
    ensures forall i :: 0 <= i < n ==> r[i] == x
  {
    if n == 0 then [] else [x] + Repeat(x, n - 1)
  }

  lemma RepeatSucc<T>(x: T, n: nat)
    ensures Repeat(x, n) + [x] == [x] + Repeat(x, n)
    ensures Repeat(x, n + 1) == [x] + Repeat(x, n)
  {
  }

  lemma {:induction false} RepeatAdd<T>(x: T, a: nat, b: nat)
    ensures Repeat(x, a) + Repeat(x, b) == Repeat(x, a + b)
  {
    if a > 0 {
      RepeatAdd(x, a - 1, b);
      assert Repeat(x, a) + Repeat(x, b) == [x] + (Repeat(x, a - 1) + Repeat(x, b));
    }
  }

  /** The elements of `s` satisfying `p`, in their original order. */
  function Filter<T(!new)>(s: seq<T>, p: T -> bool): (r: seq<T>)
    ensures |r| <= |s|
    ensures forall x :: x in r <==> x in s && p(x)
    ensures forall i :: 0 <= i < |r| ==> p(r[i])
  {
    if |s| == 0 then []
    else if p(s[0]) then [s[0]] + Filter(s[1..], p)
    else Filter(s[1..], p)
  }

  /** Filtering by a predicate and by its negation splits `s` into two
      parts that together hold every element exactly as often as `s`. */
  lemma {:induction false} FilterSplit<T(!new)>(s: seq<T>, p: T -> bool, q: T -> bool)
    requires forall x :: q(x) == !p(x)
    ensures multiset(Filter(s, p)) + multiset(Filter(s, q)) == multiset(s)
  {
    if |s| > 0 {
      FilterSplit(s[1..], p, q);
      assert s == [s[0]] + s[1..];
    }
  }

  /** Filtering keeps every occurrence of an element that satisfies the
      predicate and none of one that does not. */
  lemma {:induction false} FilterCount<T(!new)>(s: seq<T>, p: T -> bool, x: T)
    ensures multiset(Filter(s, p))[x] == if p(x) then multiset(s)[x] else 0
  {
    if |s| > 0 {
      FilterCount(s[1..], p, x);
      assert multiset(s) == multiset{s[0]} + multiset(s[1..]) by {
        assert s == [s[0]] + s[1..];
      }
      if p(s[0]) {
        assert multiset(Filter(s, p)) == multiset{s[0]} + multiset(Filter(s[1..], p));
      } else {
        assert Filter(s, p) == Filter(s[1..], p);
      }
    }
  }

  /** `s` without the elements of `drop`, in the original order. */
  function RemoveAll<T(==,!new)>(s: seq<T>, drop: set<T>): (r: seq<T>)
    ensures |r| <= |s|
    ensures forall x :: x in r <==> x in s && x !in drop
  {
    if |s| == 0 then []
    else if s[0] in drop then RemoveAll(s[1..], drop)
    else [s[0]] + RemoveAll(s[1..], drop)
  }

  lemma {:induction false} RemoveAllNoneDropped<T(!new)>(s: seq<T>, drop: set<T>)
    requires forall i :: 0 <= i < |s| ==> s[i] !in drop
    ensures RemoveAll(s, drop) == s
  {
    if |s| > 0 {
      RemoveAllNoneDropped(s[1..], drop);
      assert s == [s[0]] + s[1..];
    }
  }

  lemma {:induction false} RemoveAllAppendDropped<T(!new)>(s: seq<T>, x: T, drop: set<T>)
    requires x in drop
    ensures RemoveAll(s + [x], drop) == RemoveAll(s, drop)
  {
    if |s| == 0 {
      assert s + [x] == [x];
    } else {
      assert (s + [x])[1..] == s[1..] + [x];
      RemoveAllAppendDropped(s[1..], x, drop);
    }
  }

  /** The first element satisfying `p`, if any. */
  function FindFirst<T(!new)>(s: seq<T>, p: T -> bool): (r: Option<T>)
    ensures r.Some? ==> r.value in s && p(r.value)
    ensures r.None? <==> forall x :: x in s ==> !p(x)
  {
    if |s| == 0 then None
    else if p(s[0]) then Some(s[0])
    else FindFirst(s[1..], p)
  }

  /** Every element is `<=` every later one, comparing by `key`. */
  ghost predicate SortedBy<T>(s: seq<T>, key: T -> int) {
    forall i, j :: 0 <= i < j < |s| ==> key(s[i]) <= key(s[j])
  }

  /** Inserts `x` before the first element whose key is not smaller. */
  function InsertBy<T>(x: T, s: seq<T>, key: T -> int): (r: seq<T>)
    requires SortedBy(s, key)
    ensures multiset(r) == multiset(s) + multiset{x}
    ensures |r| == |s| + 1
    ensures r[0] == x || (|s| > 0 && r[0] == s[0])
    ensures SortedBy(r, key)
  {
    if |s| == 0 then [x]
    else if key(x) <= key(s[0]) then [x] + s
    else
      var tail := InsertBy(x, s[1..], key);
      assert s == [s[0]] + s[1..];
      assert forall i :: 0 <= i < |tail| ==> key(tail[0]) <= key(tail[i]);
      [s[0]] + tail
  }

  /** A permutation of `s` ordered by ascending `key` (a stable insertion sort). */
  function SortBy<T>(s: seq<T>, key: T -> int): (r: seq<T>)
    ensures multiset(r) == multiset(s)
    ensures |r| == |s|
    ensures SortedBy(r, key)
  {
    if |s| == 0 then []
    else
      assert s == [s[0]] + s[1..];
      InsertBy(s[0], SortBy(s[1..], key), key)
  }

  /** In a sorted sequence, what `Take` keeps is never ordered after what it drops:
      the first `k` elements are the `k` smallest keys. */
  lemma TakeIsSmallest<T>(s: seq<T>, key: T -> int, k: nat, x: T)
    requires SortedBy(s, key)
    requires k <= |s|
    requires x in s && x !in s[..k]
    ensures forall i :: 0 <= i < k ==> key(s[i]) <= key(x)
  {
    var j :| 0 <= j < |s| && s[j] == x;
  }

  /** The smaller of `a` and `b`: how many of `a` rows a `LIMIT b` keeps. */
  function Min(a: int, b: int): int {
    if a < b then a else b
  }

  /** The elements of `s` from position `offset` on, at most `limit` of
      them (SQL `LIMIT limit OFFSET offset`). */
  function Window<T>(s: seq<T>, offset: nat, limit: nat): (r: seq<T>)
    ensures |r| <= limit
    ensures offset <= |s| ==> |r| == Min(|s| - offset, limit)
    ensures offset >= |s| ==> r == []
    ensures forall i :: 0 <= i < |r| ==> offset + i < |s| && r[i] == s[offset + i]
    ensures forall x :: x in r ==> x in s
  {
    if offset >= |s| then []
    else if |s| - offset <= limit then s[offset..]
    else s[offset..offset + limit]
  }

  /** A window of a sequence ordered by descending `key` is ordered the
      same way. */
  lemma WindowKeepsOrder<T>(s: seq<T>, offset: nat, limit: nat, key: T -> int)
    requires forall i, j :: 0 <= i < j < |s| ==> key(s[i]) >= key(s[j])
    ensures var r := Window(s, offset, limit);
      forall i, j :: 0 <= i < j < |r| ==> key(r[i]) >= key(r[j])
  {
    var r := Window(s, offset, limit);
    forall i, j | 0 <= i < j < |r| ensures key(r[i]) >= key(r[j]) {
      assert r[i] == s[offset + i] && r[j] == s[offset + j];
    }
  }
}
