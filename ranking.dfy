/**
 * Stable descending sort by score, as `list.sort(key=..., reverse=True)`
 * performs it: higher scores first, and entries with equal scores keep
 * the order they had before sorting.
 */
module Ranking {

  datatype Scored<T> = Scored(score: real, item: T)

  /**
   * Inserts `x` into `sorted` right after the last entry whose score is at
   * least x's score, scanning from the right end as an insertion sort does.
   */
  function Insert<T>(sorted: seq<Scored<T>>, x: Scored<T>): seq<Scored<T>>
  {
    if sorted == [] || sorted[|sorted| - 1].score >= x.score then sorted + [x]
    else Insert(sorted[..|sorted| - 1], x) + [sorted[|sorted| - 1]]
  }

  /** Insertion sort, one element at a time from the left. */
  function SortDescending<T>(s: seq<Scored<T>>): seq<Scored<T>>
  {
    if s == [] then [] else Insert(SortDescending(s[..|s| - 1]), s[|s| - 1])
  }

  ghost predicate Descending<T>(s: seq<Scored<T>>)
  {
    forall i, j :: 0 <= i < j < |s| ==> s[i].score >= s[j].score
  }

  /** The entries of `s` whose score is exactly `k`, in order. */
  function WithScore<T>(s: seq<Scored<T>>, k: real): seq<Scored<T>>
  {
    if s == [] then []
    else WithScore(s[..|s| - 1], k) + (if s[|s| - 1].score == k then [s[|s| - 1]] else [])
  }

  /** The entries, scores dropped. */
  function Items<T>(s: seq<Scored<T>>): seq<T>
  {
    seq(|s|, i requires 0 <= i < |s| => s[i].item)
  }

  lemma ItemsAppend<T>(s: seq<Scored<T>>, t: seq<Scored<T>>)
    ensures Items(s + t) == Items(s) + Items(t)
  {
  }

  /** Rearranging scored entries rearranges their items the same way. */
  lemma {:induction false} ItemsOfPermutation<T>(s: seq<Scored<T>>, t: seq<Scored<T>>)
    requires multiset(s) == multiset(t)
    ensures multiset(Items(s)) == multiset(Items(t))
    decreases |s|
  {
    if s == [] {
      assert |t| == |multiset(t)| == 0;
    } else {
      var n := |s|;
      var x := s[n - 1];
      assert x in multiset(t);
      var k :| 0 <= k < |t| && t[k] == x;
      var rest := t[..k] + t[k + 1..];
      assert t == t[..k] + [x] + t[k + 1..];
      assert s == s[..n - 1] + [x];
      assert multiset(t) == multiset(t[..k]) + multiset{x} + multiset(t[k + 1..]);
      assert multiset(s) == multiset(s[..n - 1]) + multiset{x};
      assert multiset(rest) == multiset(t[..k]) + multiset(t[k + 1..]);
      assert multiset(rest) == multiset(t) - multiset{x};
      assert multiset(s[..n - 1]) == multiset(s) - multiset{x};
      ItemsOfPermutation(s[..n - 1], rest);
      ItemsAppend(s[..n - 1], [x]);
      ItemsAppend(t[..k] + [x], t[k + 1..]);
      ItemsAppend(t[..k], [x]);
      ItemsAppend(t[..k], t[k + 1..]);
    }
  }

  lemma {:induction false} InsertPermutes<T>(sorted: seq<Scored<T>>, x: Scored<T>)
    ensures multiset(Insert(sorted, x)) == multiset(sorted) + multiset{x}
  {
    if sorted != [] && sorted[|sorted| - 1].score < x.score {
      var n := |sorted|;
      InsertPermutes(sorted[..n - 1], x);
      assert sorted == sorted[..n - 1] + [sorted[n - 1]];
    }
  }

  lemma {:induction false} InsertKeepsDescending<T>(sorted: seq<Scored<T>>, x: Scored<T>)
    requires Descending(sorted)
    ensures Descending(Insert(sorted, x))
    ensures |Insert(sorted, x)| == |sorted| + 1
  {
    if sorted != [] && sorted[|sorted| - 1].score < x.score {
      var n := |sorted|;
      var front := sorted[..n - 1];
      InsertKeepsDescending(front, x);
      InsertPermutes(front, x);
      var r := Insert(front, x);
      // every entry of r is x or an entry of front, all scoring above sorted[n-1]
      forall i | 0 <= i < |r| ensures r[i].score >= sorted[n - 1].score {
        assert r[i] in multiset(r);
        assert r[i] == x || r[i] in multiset(front);
        if r[i] != x {
          var j :| 0 <= j < |front| && front[j] == r[i];
          assert sorted[j] == r[i];
        }
      }
    }
  }

  /** Filtering a sequence extended by one entry. */
  lemma WithScoreSnoc<T>(s: seq<Scored<T>>, y: Scored<T>, k: real)
    ensures WithScore(s + [y], k) == WithScore(s, k) + (if y.score == k then [y] else [])
  {
    assert (s + [y])[..|s|] == s;
  }

  /**
   * Stability of one insertion: x lands after every entry with its score,
   * so filtering by any score value sees x appended at the end.
   */
  lemma {:induction false} InsertStable<T>(sorted: seq<Scored<T>>, x: Scored<T>, k: real)
    ensures WithScore(Insert(sorted, x), k)
         == WithScore(sorted, k) + (if x.score == k then [x] else [])
  {
    if sorted == [] || sorted[|sorted| - 1].score >= x.score {
      WithScoreSnoc(sorted, x, k);
    } else {
      var front, last := sorted[..|sorted| - 1], sorted[|sorted| - 1];
      var r := Insert(front, x);
      assert Insert(sorted, x) == r + [last];
      assert sorted == front + [last];
      InsertStable(front, x, k);
      WithScoreSnoc(r, last, k);
      WithScoreSnoc(front, last, k);
    }
  }

  /** The sorted sequence is a permutation of its input. */
  lemma {:induction false} SortPermutes<T>(s: seq<Scored<T>>)
    ensures multiset(SortDescending(s)) == multiset(s)
    ensures |SortDescending(s)| == |s|
  {
    if s != [] {
      var n := |s|;
      SortPermutes(s[..n - 1]);
      InsertPermutes(SortDescending(s[..n - 1]), s[n - 1]);
      assert s == s[..n - 1] + [s[n - 1]];
    }
  }

  /** The sorted sequence has non-increasing scores. */
  lemma {:induction false} SortIsDescending<T>(s: seq<Scored<T>>)
    ensures Descending(SortDescending(s))
  {
    if s != [] {
      SortIsDescending(s[..|s| - 1]);
      InsertKeepsDescending(SortDescending(s[..|s| - 1]), s[|s| - 1]);
    }
  }

  /** Entries with equal scores come out in the order they went in. */
  lemma {:induction false} SortIsStable<T>(s: seq<Scored<T>>, k: real)
    ensures WithScore(SortDescending(s), k) == WithScore(s, k)
  {
    if s != [] {
      var n := |s|;
      SortIsStable(s[..n - 1], k);
      InsertStable(SortDescending(s[..n - 1]), s[n - 1], k);
    }
  }

  /**
   * Any arrangement that is descending and keeps equal-score entries in
   * input order is the insertion sort's result: a stable descending sort
   * has exactly one possible output, whatever algorithm computes it.
   */
  lemma {:induction false} StableSortIsUnique<T>(t: seq<Scored<T>>, u: seq<Scored<T>>)
    requires Descending(t) && Descending(u)
    requires forall k :: WithScore(t, k) == WithScore(u, k)
    ensures t == u
    decreases |t|
  {
    if t == [] || u == [] {
      if t != [] {
        LastInWithScore(t);
        assert false;
      } else if u != [] {
        LastInWithScore(u);
        assert false;
      }
    } else {
      var lt, lu := t[|t| - 1], u[|u| - 1];
      var t', u' := t[..|t| - 1], u[..|u| - 1];
      // the last entries have the minimum score of each side; both minima agree
      WithScoreMember(u, lt.score, lt);
      WithScoreMember(t, lu.score, lu);
      assert lt.score == lu.score;
      var m := lt.score;
      var wt, wu := WithScore(t', m), WithScore(u', m);
      assert WithScore(t, m) == wt + [lt];
      assert WithScore(u, m) == wu + [lu];
      assert WithScore(t, m) == WithScore(u, m);
      assert lt == (wt + [lt])[|wt|] == (wu + [lu])[|wu|] == lu;
      forall k ensures WithScore(t', k) == WithScore(u', k) {
        var e := if m == k then [lt] else [];
        assert WithScore(t, k) == WithScore(t', k) + e;
        assert WithScore(u, k) == WithScore(u', k) + e;
        assert WithScore(t, k) == WithScore(u, k);
        assert WithScore(t', k) == (WithScore(t', k) + e)[..|WithScore(t', k)|];
        assert WithScore(u', k) == (WithScore(u', k) + e)[..|WithScore(u', k)|];
      }
      StableSortIsUnique(t', u');
    }
  }

  lemma LastInWithScore<T>(s: seq<Scored<T>>)
    requires s != []
    ensures WithScore(s, s[|s| - 1].score) != []
  {
  }

  /**
   * In a descending sequence, an entry with score k exists only if k is at
   * least the score of the last entry.
   */
  lemma {:induction false} WithScoreMember<T>(s: seq<Scored<T>>, k: real, x: Scored<T>)
    requires Descending(s) && s != []
    requires x in WithScore(s, k)
    ensures x.score == k && k >= s[|s| - 1].score
  {
    var n := |s|;
    WithScoreSubset(s, k, x);
    var j :| 0 <= j < n && s[j] == x;
    assert s[j].score >= s[n - 1].score;
  }

  lemma {:induction false} WithScoreSubset<T>(s: seq<Scored<T>>, k: real, x: Scored<T>)
    requires x in WithScore(s, k)
    ensures x in s && x.score == k
  {
    if s != [] {
      var n := |s|;
      if x in WithScore(s[..n - 1], k) {
        WithScoreSubset(s[..n - 1], k, x);
      }
    }
  }

  /**
   * Sorts `a` in place into SortDescending(old contents): an insertion sort
   * that shifts every entry with a strictly smaller score one slot right.
   */
  method SortInPlace<T>(a: array<Scored<T>>)
    modifies a
    ensures a[..] == SortDescending(old(a[..]))
  {
    ghost var input := a[..];
    var i := 0;
    while i < a.Length
      invariant 0 <= i <= a.Length
      invariant a[..i] == SortDescending(input[..i])
      invariant a[i..] == input[i..]
    {
      InsertInPlace(a, i);
      assert input[..i + 1] == input[..i] + [input[i]];
      i := i + 1;
    }
    assert input[..a.Length] == input;
  }

  /** Moves a[i] into place within the already sorted prefix a[..i]. */
  method InsertInPlace<T>(a: array<Scored<T>>, i: int)
    requires 0 <= i < a.Length
    modifies a
    ensures a[..i + 1] == Insert(old(a[..i]), old(a[i]))
    ensures a[i + 1..] == old(a[i + 1..])
  {
    ghost var prefix := a[..i];
    var x := a[i];
    var j := FindSlot(a, i, x);
    InsertAtSlot(prefix, x, j);
    ShiftRight(a, j, i);
    a[j] := x;
    assert a[..i + 1] == prefix[..j] + [x] + prefix[j..];
  }

  /**
   * Scans a[..i] from the right past every entry scoring strictly below x;
   * the result is where x belongs.
   */
  method FindSlot<T>(a: array<Scored<T>>, i: int, x: Scored<T>) returns (j: int)
    requires 0 <= i <= a.Length
    ensures 0 <= j <= i
    ensures j == 0 || a[j - 1].score >= x.score
    ensures forall m :: j <= m < i ==> a[m].score < x.score
  {
    j := i;
    while j > 0 && a[j - 1].score < x.score
      invariant 0 <= j <= i
      invariant forall m :: j <= m < i ==> a[m].score < x.score
    {
      j := j - 1;
    }
  }

  /** Moves a[j..i] one place to the right, leaving a[j] to be overwritten. */
  method ShiftRight<T>(a: array<Scored<T>>, j: int, i: int)
    requires 0 <= j <= i < a.Length
    modifies a
    ensures a[..j] == old(a[..j])
    ensures a[j + 1..i + 1] == old(a[j..i])
    ensures a[i + 1..] == old(a[i + 1..])
  {
    var m := i;
    while m > j
      invariant j <= m <= i
      invariant forall k :: 0 <= k <= m ==> a[k] == old(a[k])
      invariant forall k :: m < k <= i ==> a[k] == old(a[k - 1])
      invariant forall k :: i < k < a.Length ==> a[k] == old(a[k])
    {
      a[m] := a[m - 1];
      m := m - 1;
    }
  }

  /**
   * Where the insertion lands: after the last entry scoring at least x,
   * before the run of entries scoring strictly below it.
   */
  lemma {:induction false} InsertAtSlot<T>(prefix: seq<Scored<T>>, x: Scored<T>, j: int)
    requires 0 <= j <= |prefix|
    requires j == 0 || prefix[j - 1].score >= x.score
    requires forall m :: j <= m < |prefix| ==> prefix[m].score < x.score
    ensures Insert(prefix, x) == prefix[..j] + [x] + prefix[j..]
    decreases |prefix| - j
  {
    if j == |prefix| {
      assert prefix[..j] == prefix && prefix[j..] == [];
    } else {
      var n := |prefix|;
      var front := prefix[..n - 1];
      assert front[..j] == prefix[..j];
      InsertAtSlot(front, x, j);
      assert prefix[j..] == front[j..] + [prefix[n - 1]];
    }
  }

  /**
   * Python's `s[:k]`: the first k entries for k >= 0 (all of them when k is
   * larger than the length); for negative k, all but the last -k entries.
   */
  function SliceTo<T>(s: seq<T>, k: int): (r: seq<T>)
    ensures 0 <= k ==> |r| == (if k < |s| then k else |s|)
    ensures k < 0 ==> |r| == (if |s| + k > 0 then |s| + k else 0)
    ensures r == s[..|r|]
  {
    if k >= 0 then (if k < |s| then s[..k] else s)
    else if |s| + k > 0 then s[..|s| + k] else []
  }
}
