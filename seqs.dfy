/**
 * Order-preserving selection, reversal and truncation of sequences: the
 * shapes of `WHERE`, `ORDER BY ... DESC` and `LIMIT` over a table kept in
 * row order, and of filtering a crontab's entries.
 */
module Seqs {

  /** The elements of `s` that `keep` accepts, in their original order. */
  function Filter<T>(s: seq<T>, keep: T -> bool): (r: seq<T>)
    ensures |r| <= |s|
    ensures forall k :: 0 <= k < |r| ==> r[k] in s && keep(r[k])
    ensures forall i :: 0 <= i < |s| && keep(s[i]) ==> s[i] in r
  {
    if s == [] then [] else (if keep(s[0]) then [s[0]] else []) + Filter(s[1..], keep)
  }

  /** Filtering distributes over concatenation. */
  lemma {:induction false} FilterAppend<T>(a: seq<T>, b: seq<T>, keep: T -> bool)
    ensures Filter(a + b, keep) == Filter(a, keep) + Filter(b, keep)
  {
    if a == [] {
      assert a + b == b;
    } else {
      assert (a + b)[1..] == a[1..] + b;
      FilterAppend(a[1..], b, keep);
    }
  }

  /** What filtering the rest of a sequence keeps still comes after its first element. */
  lemma FilterAfterHead<T>(s: seq<T>, keep: T -> bool, rel: (T, T) -> bool, x: T)
    requires s != [] && forall j :: 0 < j < |s| ==> rel(s[0], s[j])
    requires x in Filter(s[1..], keep)
    ensures rel(s[0], x)
  {
    assert x in s[1..];
    var j :| 0 <= j < |s[1..]| && s[1..][j] == x;
    assert s[j + 1] == x;
  }

  /** A relation that holds between every earlier and later element still holds after filtering. */
  lemma {:induction false} FilterPairwise<T>(s: seq<T>, keep: T -> bool, rel: (T, T) -> bool)
    requires forall i, j :: 0 <= i < j < |s| ==> rel(s[i], s[j])
    ensures forall k, l :: 0 <= k < l < |Filter(s, keep)| ==> rel(Filter(s, keep)[k], Filter(s, keep)[l])
  {
    if s != [] {
      var tail := Filter(s[1..], keep);
      forall i, j | 0 <= i < j < |s[1..]| ensures rel(s[1..][i], s[1..][j]) {
        assert s[1..][i] == s[i + 1] && s[1..][j] == s[j + 1];
      }
      FilterPairwise(s[1..], keep, rel);
      if keep(s[0]) {
        var r := [s[0]] + tail;
        assert Filter(s, keep) == r;
        forall k, l | 0 <= k < l < |r| ensures rel(r[k], r[l]) {
          if k == 0 {
            assert r[l] == tail[l - 1] && r[l] in tail;
            FilterAfterHead(s, keep, rel, r[l]);
          } else {
            assert r[k] == tail[k - 1] && r[l] == tail[l - 1];
          }
        }
      } else {
        assert Filter(s, keep) == tail;
      }
    }
  }

  /** Filtering with a test that every element passes changes nothing. */
  lemma {:induction false} FilterKeepsAll<T>(s: seq<T>, keep: T -> bool)
    requires forall i :: 0 <= i < |s| ==> keep(s[i])
    ensures Filter(s, keep) == s
  {
    if s != [] {
      FilterKeepsAll(s[1..], keep);
    }
  }

  /** Filtering twice with the same test is filtering once. */
  lemma {:induction false} FilterIdempotent<T>(s: seq<T>, keep: T -> bool)
    ensures Filter(Filter(s, keep), keep) == Filter(s, keep)
  {
    var r := Filter(s, keep);
    forall i | 0 <= i < |r| ensures keep(r[i]) {
      assert r[i] in r;
    }
    FilterKeepsAll(r, keep);
  }

  /** `s` read from its last element to its first. */
  function Reverse<T>(s: seq<T>): (r: seq<T>)
    ensures |r| == |s|
    ensures forall k :: 0 <= k < |s| ==> r[k] == s[|s| - 1 - k]
  {
    if s == [] then [] else [s[|s| - 1]] + Reverse(s[..|s| - 1])
  }

  /** SQL `LIMIT n`: the first `n` elements; a negative limit imposes no bound. */
  function Limit<T>(s: seq<T>, n: int): (r: seq<T>)
    ensures |r| == (if 0 <= n < |s| then n else |s|)
    ensures r == s[..|r|]
  {
    if n < 0 || |s| <= n then s else s[..n]
  }
}
