/** Sequence operations the Python code gets from slicing and `reversed`. */
module Seqs {

  function Min(a: int, b: int): int { if a <= b then a else b }

  /** Python's `s[:n]` for a non-negative `n`. */
  function Take<T>(s: seq<T>, n: nat): (r: seq<T>)
    ensures |r| == Min(n, |s|) && r <= s
  {
    if n <= |s| then s[..n] else s
  }

  /** The last `k` elements of `s` (all of `s` when it is shorter). */
  function Newest<T>(s: seq<T>, k: nat): (r: seq<T>)
    ensures |r| == Min(k, |s|)
  {
    s[|s| - Min(k, |s|)..]
  }

  /** Python's `list(reversed(s))`. */
  function Reverse<T>(s: seq<T>): seq<T>
  {
    if s == [] then [] else Reverse(s[1..]) + [s[0]]
  }

  /** Element `i` of the reversal is element `|s| - 1 - i` of `s`. */
  lemma {:induction false} ReverseFacts<T>(s: seq<T>)
    ensures |Reverse(s)| == |s|
    ensures forall i :: 0 <= i < |s| ==> Reverse(s)[i] == s[|s| - 1 - i]
  {
    if s != [] {
      ReverseFacts(s[1..]);
    }
  }

  /** Keeping one more element keeps the one that was appended last. */
  lemma NewestAppend<T>(s: seq<T>, x: T, k: nat)
    requires 0 < k
    ensures Newest(s + [x], k) == Newest(s, k - 1) + [x]
  {
    var a, b := Newest(s + [x], k), Newest(s, k - 1) + [x];
    assert |a| == |b|;
    forall i | 0 <= i < |a| ensures a[i] == b[i] {
      if i < |a| - 1 {
        assert b[i] == Newest(s, k - 1)[i];
      }
    }
  }

  /** Reading the newest `k` rows newest-first and reversing them gives
      the newest `k` rows oldest-first. */
  lemma ReverseOfNewestFirst<T>(s: seq<T>, k: nat)
    ensures Reverse(Take(Reverse(s), k)) == Newest(s, k)
  {
    ReverseFacts(s);
    ReverseFacts(Take(Reverse(s), k));
    var a, b := Reverse(Take(Reverse(s), k)), Newest(s, k);
    assert |a| == |b|;
    forall i | 0 <= i < |a| ensures a[i] == b[i] {
      var n := |a|;
      assert a[i] == Take(Reverse(s), k)[n - 1 - i] == Reverse(s)[n - 1 - i];
    }
  }
}
