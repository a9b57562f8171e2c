/**
 * The list operations shared by the similarity and preference layers: lists of
 * `(key, score)` pairs, `list.sort(key=score, reverse=True)` (a stable sort, so
 * pairs of equal score keep their relative order) and the slice `xs[:k]`.
 */
module Ranking {

  /** A `(key, score)` tuple: a row index or a movie id with its score. */
  datatype Scored = Scored(key: int, score: real)

  predicate SortedDesc(xs: seq<Scored>) {
    forall i, j :: 0 <= i < j < |xs| ==> xs[i].score >= xs[j].score
  }

  /** Score descending, and key ascending among equal scores. */
  predicate SortedDescThenKey(xs: seq<Scored>) {
    forall i, j :: 0 <= i < j < |xs| ==>
      xs[i].score > xs[j].score || (xs[i].score == xs[j].score && xs[i].key < xs[j].key)
  }

  predicate KeysIncreasing(xs: seq<Scored>) {
    forall i, j :: 0 <= i < j < |xs| ==> xs[i].key < xs[j].key
  }

  function Keys(xs: seq<Scored>): (r: seq<int>)
    ensures |r| == |xs|
    ensures forall i :: 0 <= i < |xs| ==> r[i] == xs[i].key
  {
    if xs == [] then [] else [xs[0].key] + Keys(xs[1..])
  }

  function Scores(xs: seq<Scored>): (r: seq<real>)
    ensures |r| == |xs|
    ensures forall i :: 0 <= i < |xs| ==> r[i] == xs[i].score
  {
    if xs == [] then [] else [xs[0].score] + Scores(xs[1..])
  }

  /** The entries whose score is exactly `s`, in list order. */
  function WithScore(xs: seq<Scored>, s: real): (r: seq<Scored>)
    ensures |r| <= |xs|
    ensures forall i :: 0 <= i < |r| ==> r[i].score == s
  {
    if xs == [] then []
    else (if xs[0].score == s then [xs[0]] else []) + WithScore(xs[1..], s)
  }

  /**
   * Puts `x` in front of the first entry whose score does not exceed its own:
   * `x` stands before every entry of equal score, which is what makes the sort stable.
   */
  function Insert(x: Scored, ys: seq<Scored>): (r: seq<Scored>)
    ensures |r| == |ys| + 1
    ensures multiset(r) == multiset(ys) + multiset{x}
  {
    if ys == [] || ys[0].score <= x.score then [x] + ys
    else
      assert ys == [ys[0]] + ys[1..];
      [ys[0]] + Insert(x, ys[1..])
  }

  lemma {:induction false} InsertSorted(x: Scored, ys: seq<Scored>)
    requires SortedDesc(ys)
    ensures SortedDesc(Insert(x, ys))
  {
    if ys != [] && ys[0].score > x.score {
      var rest := Insert(x, ys[1..]);
      InsertSorted(x, ys[1..]);
      assert ys == [ys[0]] + ys[1..];
      forall k | 0 <= k < |rest|
        ensures ys[0].score >= rest[k].score
      {
        assert rest[k] in multiset(ys[1..]) + multiset{x};
        if rest[k] != x {
          assert rest[k] in ys[1..];
        }
      }
    }
  }

  /** `list.sort(key=lambda p: p.score, reverse=True)`. */
  function SortByScore(xs: seq<Scored>): (r: seq<Scored>)
    ensures |r| == |xs|
    ensures multiset(r) == multiset(xs)
    ensures SortedDesc(r)
  {
    if xs == [] then []
    else
      assert xs == [xs[0]] + xs[1..];
      var tail := SortByScore(xs[1..]);
      InsertSorted(xs[0], tail);
      Insert(xs[0], tail)
  }

  lemma {:induction false} InsertKeys(x: Scored, ys: seq<Scored>)
    ensures multiset(Keys(Insert(x, ys))) == multiset{x.key} + multiset(Keys(ys))
  {
    if ys != [] && ys[0].score > x.score {
      var rest := Insert(x, ys[1..]);
      assert Insert(x, ys) == [ys[0]] + rest;
      InsertKeys(x, ys[1..]);
      assert Keys([ys[0]] + rest) == [ys[0].key] + Keys(rest);
      assert Keys(ys) == [ys[0].key] + Keys(ys[1..]);
    } else {
      assert Insert(x, ys) == [x] + ys;
      assert Keys([x] + ys) == [x.key] + Keys(ys);
    }
  }

  /** Sorting moves whole pairs: the keys are only reordered. */
  lemma {:induction false} SortByScoreKeys(xs: seq<Scored>)
    ensures multiset(Keys(SortByScore(xs))) == multiset(Keys(xs))
  {
    if xs != [] {
      SortByScoreKeys(xs[1..]);
      InsertKeys(xs[0], SortByScore(xs[1..]));
      assert Keys(xs) == [xs[0].key] + Keys(xs[1..]);
    }
  }

  lemma {:induction false} WithScoreAppend(a: seq<Scored>, b: seq<Scored>, s: real)
    ensures WithScore(a + b, s) == WithScore(a, s) + WithScore(b, s)
  {
    if a == [] {
      assert a + b == b;
    } else {
      assert (a + b)[1..] == a[1..] + b;
      WithScoreAppend(a[1..], b, s);
    }
  }

  lemma {:induction false} WithScoreInsert(x: Scored, ys: seq<Scored>, s: real)
    ensures WithScore(Insert(x, ys), s) == WithScore([x], s) + WithScore(ys, s)
  {
    WithScoreAppend([x], ys, s);
    if ys == [] || ys[0].score <= x.score {
    } else {
      var rest := Insert(x, ys[1..]);
      WithScoreInsert(x, ys[1..], s);
      WithScoreAppend([ys[0]], rest, s);
      WithScoreAppend([ys[0]], ys[1..], s);
      assert [ys[0]] + ys[1..] == ys;
      assert [x][1..] == [];
      assert [ys[0]][1..] == [];
      if x.score == s {
        assert WithScore([ys[0]], s) == [];
      } else {
        assert WithScore([x], s) == [];
      }
    }
  }

  /** Stability: for every score, the entries with that score appear in their input order. */
  lemma {:induction false} SortByScoreStable(xs: seq<Scored>, s: real)
    ensures WithScore(SortByScore(xs), s) == WithScore(xs, s)
  {
    if xs != [] {
      var tail := SortByScore(xs[1..]);
      assert SortByScore(xs) == Insert(xs[0], tail);
      SortByScoreStable(xs[1..], s);
      WithScoreInsert(xs[0], tail, s);
      assert WithScore(xs, s) == WithScore([xs[0]], s) + WithScore(xs[1..], s) by {
        WithScoreAppend([xs[0]], xs[1..], s);
        assert [xs[0]] + xs[1..] == xs;
      }
    }
  }

  lemma {:induction false} InsertThenKey(x: Scored, ys: seq<Scored>)
    requires SortedDescThenKey(ys)
    requires forall k :: 0 <= k < |ys| ==> x.key < ys[k].key
    ensures SortedDescThenKey(Insert(x, ys))
  {
    if ys == [] || ys[0].score <= x.score {
      assert Insert(x, ys) == [x] + ys;
      ConsThenKey(x, ys);
    } else {
      var tail := ys[1..];
      var rest := Insert(x, tail);
      assert Insert(x, ys) == [ys[0]] + rest;
      assert SortedDescThenKey(tail);
      InsertThenKey(x, tail);
      InsertMembers(x, tail);
      forall k | 0 <= k < |rest|
        ensures ys[0].score > rest[k].score || (ys[0].score == rest[k].score && ys[0].key < rest[k].key)
      {
        assert rest[k] in rest;
        if rest[k] != x {
          assert rest[k] in tail;
          var m :| 0 <= m < |tail| && tail[m] == rest[k];
          assert ys[m + 1] == rest[k];
        }
      }
      ConsThenKey(ys[0], rest);
    }
  }

  /** Every entry of `Insert(x, ys)` is `x` or an entry of `ys`. */
  lemma {:induction false} InsertMembers(x: Scored, ys: seq<Scored>)
    ensures forall p :: p in Insert(x, ys) ==> p == x || p in ys
  {
    if ys != [] && ys[0].score > x.score {
      InsertMembers(x, ys[1..]);
      assert Insert(x, ys) == [ys[0]] + Insert(x, ys[1..]);
      assert forall p :: p in ys[1..] ==> p in ys;
    }
  }

  /** An entry that goes before all of an ordered list keeps it ordered. */
  lemma ConsThenKey(x: Scored, ys: seq<Scored>)
    requires SortedDescThenKey(ys)
    requires forall k :: 0 <= k < |ys| ==> x.score > ys[k].score || (x.score == ys[k].score && x.key < ys[k].key)
    ensures SortedDescThenKey([x] + ys)
  {
    var r := [x] + ys;
    forall i, j | 0 <= i < j < |r|
      ensures r[i].score > r[j].score || (r[i].score == r[j].score && r[i].key < r[j].key)
    {
      assert r[j] == ys[j - 1];
      if i > 0 {
        assert r[i] == ys[i - 1];
      }
    }
  }

  /**
   * When the keys increase along the input (an `enumerate`d list), the sorted list is
   * ordered by score descending and, among equal scores, by key ascending.
   */
  lemma {:induction false} SortByScoreThenKey(xs: seq<Scored>)
    requires KeysIncreasing(xs)
    ensures SortedDescThenKey(SortByScore(xs))
  {
    if xs != [] {
      var tail := SortByScore(xs[1..]);
      SortByScoreThenKey(xs[1..]);
      forall k | 0 <= k < |tail|
        ensures xs[0].key < tail[k].key
      {
        assert tail[k] in multiset(xs[1..]);
        assert tail[k] in xs[1..];
      }
      InsertThenKey(xs[0], tail);
    }
  }

  /** Python's `xs[:k]`: a negative `k` counts from the end. */
  function PyPrefix<T>(xs: seq<T>, k: int): (r: seq<T>)
    ensures r <= xs
    ensures k >= 0 ==> |r| == if k <= |xs| then k else |xs|
    ensures k < 0 ==> |r| == if |xs| + k >= 0 then |xs| + k else 0
  {
    if k >= 0 then (if k <= |xs| then xs[..k] else xs)
    else (if |xs| + k >= 0 then xs[..|xs| + k] else [])
  }

  lemma PrefixKeepsOrder(xs: seq<Scored>, k: int)
    requires SortedDesc(xs)
    ensures SortedDesc(PyPrefix(xs, k))
  {
    var r := PyPrefix(xs, k);
    assert forall i :: 0 <= i < |r| ==> r[i] == xs[i];
  }

  /** The product of two non-negative scores or weights is non-negative. */
  lemma ProductNonneg(a: real, b: real)
    requires a >= 0.0 && b >= 0.0
    ensures a * b >= 0.0
  {
  }
}
