/**
 * Ranking by a real-valued key. The service sorts in three places: Python's stable
 * `list.sort(key=..., reverse=True)` (ties keep their original order, lower index
 * first) and `np.argsort(...)[::-1]` (a stable ascending sort read backwards, so ties
 * come out higher index first). Both are sorts of positions 0..n-1 under a strict
 * order on positions; `lowerFirst` chooses the tie rule.
 */
module Ranking {

  /** Position `i` is ranked before position `j`. */
  predicate Precedes(keys: seq<real>, i: nat, j: nat, lowerFirst: bool)
    requires i < |keys| && j < |keys|
  {
    keys[i] > keys[j] || (keys[i] == keys[j] && (if lowerFirst then i < j else i > j))
  }

  predicate InRange(keys: seq<real>, idx: seq<nat>) {
    forall k :: 0 <= k < |idx| ==> idx[k] < |keys|
  }

  /** `idx` lists positions strictly in ranking order (so without repetition). */
  predicate Ranked(keys: seq<real>, idx: seq<nat>, lowerFirst: bool)
    requires InRange(keys, idx)
  {
    forall a, b :: 0 <= a < b < |idx| ==> Precedes(keys, idx[a], idx[b], lowerFirst)
  }

  function Range(n: nat): (r: seq<nat>)
    ensures |r| == n && forall k :: 0 <= k < n ==> r[k] == k
  {
    seq(n, k requires 0 <= k < n => k)
  }

  function Insert(keys: seq<real>, x: nat, sorted: seq<nat>, lowerFirst: bool): (r: seq<nat>)
    requires x < |keys| && InRange(keys, sorted)
    ensures InRange(keys, r)
    ensures multiset(r) == multiset(sorted) + multiset{x}
    decreases |sorted|
  {
    if |sorted| == 0 then [x]
    else if Precedes(keys, x, sorted[0], lowerFirst) then [x] + sorted
    else
      assert sorted == [sorted[0]] + sorted[1..];
      [sorted[0]] + Insert(keys, x, sorted[1..], lowerFirst)
  }

  /** Insertion sort of a list of positions. */
  function SortIndices(keys: seq<real>, idx: seq<nat>, lowerFirst: bool): (r: seq<nat>)
    requires InRange(keys, idx)
    ensures InRange(keys, r)
    ensures multiset(r) == multiset(idx)
    decreases |idx|
  {
    if |idx| == 0 then []
    else
      assert idx == [idx[0]] + idx[1..];
      Insert(keys, idx[0], SortIndices(keys, idx[1..], lowerFirst), lowerFirst)
  }

  /** All positions of `keys`, in ranking order. */
  function RankOrder(keys: seq<real>, lowerFirst: bool): seq<nat> {
    SortIndices(keys, Range(|keys|), lowerFirst)
  }

  // ================================================================ lemmas

  lemma {:induction false} InsertRanked(keys: seq<real>, x: nat, sorted: seq<nat>, lowerFirst: bool)
    requires x < |keys| && InRange(keys, sorted)
    requires Ranked(keys, sorted, lowerFirst) && x !in sorted
    ensures Ranked(keys, Insert(keys, x, sorted, lowerFirst), lowerFirst)
    decreases |sorted|
  {
    if |sorted| == 0 {
    } else if Precedes(keys, x, sorted[0], lowerFirst) {
    } else {
      var tail := Insert(keys, x, sorted[1..], lowerFirst);
      assert Insert(keys, x, sorted, lowerFirst) == [sorted[0]] + tail;
      InsertRanked(keys, x, sorted[1..], lowerFirst);
      HeadPrecedesInsert(keys, x, sorted, lowerFirst, tail);
      RankedCons(keys, sorted[0], tail, lowerFirst);
    }
  }

  /** When `x` goes after the head, the head still precedes everything after it. */
  lemma HeadPrecedesInsert(keys: seq<real>, x: nat, sorted: seq<nat>, lowerFirst: bool, tail: seq<nat>)
    requires x < |keys| && InRange(keys, sorted) && |sorted| > 0
    requires Ranked(keys, sorted, lowerFirst) && !Precedes(keys, x, sorted[0], lowerFirst) && x != sorted[0]
    requires tail == Insert(keys, x, sorted[1..], lowerFirst)
    ensures forall b :: 0 <= b < |tail| ==> Precedes(keys, sorted[0], tail[b], lowerFirst)
  {
    forall b | 0 <= b < |tail| ensures Precedes(keys, sorted[0], tail[b], lowerFirst) {
      assert tail[b] in multiset(tail);
      if tail[b] != x {
        assert tail[b] in multiset(sorted[1..]);
        var c :| 0 <= c < |sorted[1..]| && sorted[1..][c] == tail[b];
        assert sorted[c + 1] == tail[b];
      }
    }
  }

  /** A ranked list stays ranked behind a head that precedes all of it. */
  lemma RankedCons(keys: seq<real>, h: nat, tail: seq<nat>, lowerFirst: bool)
    requires h < |keys| && InRange(keys, tail) && Ranked(keys, tail, lowerFirst)
    requires forall b :: 0 <= b < |tail| ==> Precedes(keys, h, tail[b], lowerFirst)
    ensures InRange(keys, [h] + tail) && Ranked(keys, [h] + tail, lowerFirst)
  {
    var r := [h] + tail;
    forall a, b | 0 <= a < b < |r| ensures Precedes(keys, r[a], r[b], lowerFirst) {
      assert r[b] == tail[b - 1];
      if a > 0 { assert r[a] == tail[a - 1]; }
    }
  }

  predicate Distinct(idx: seq<nat>) {
    forall a, b :: 0 <= a < b < |idx| ==> idx[a] != idx[b]
  }

  lemma {:induction false} SortIndicesRanked(keys: seq<real>, idx: seq<nat>, lowerFirst: bool)
    requires InRange(keys, idx) && Distinct(idx)
    ensures Ranked(keys, SortIndices(keys, idx, lowerFirst), lowerFirst)
    decreases |idx|
  {
    if |idx| > 0 {
      var rest := SortIndices(keys, idx[1..], lowerFirst);
      SortIndicesRanked(keys, idx[1..], lowerFirst);
      assert forall c :: 0 <= c < |idx[1..]| ==> idx[1..][c] == idx[c + 1] != idx[0];
      assert idx[0] !in multiset(idx[1..]);
      assert idx[0] !in multiset(rest);
      InsertRanked(keys, idx[0], rest, lowerFirst);
    }
  }

  /**
   * RankOrder lists every position exactly once, in strictly decreasing key order,
   * equal keys in index order (ascending when `lowerFirst`, descending otherwise).
   */
  lemma RankOrderSpec(keys: seq<real>, lowerFirst: bool)
    ensures var r := RankOrder(keys, lowerFirst);
      && |r| == |keys|
      && InRange(keys, r)
      && (forall i :: 0 <= i < |keys| ==> i in r)
      && Ranked(keys, r, lowerFirst)
  {
    var n := |keys|;
    var r := RankOrder(keys, lowerFirst);
    SortIndicesRanked(keys, Range(n), lowerFirst);
    assert |r| == |multiset(r)| == |multiset(Range(n))| == n;
    forall i | 0 <= i < n ensures i in r {
      assert Range(n)[i] == i;
      assert i in multiset(Range(n));
    }
  }
}
