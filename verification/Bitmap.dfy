/** Bitmaps searched a word at a time, with a hand below which nothing is free. */
module Bitmap {
  const WORD_BITS := 32

  function Count(s: seq<bool>): nat {
    if s == [] then 0 else Count(s[..|s| - 1]) + if s[|s| - 1] then 1 else 0
  }

  /** The lowest free unit. */
  ghost predicate Lowest(s: seq<bool>, n: nat) {
    n < |s| && s[n] && forall i :: 0 <= i < n ==> !s[i]
  }

  ghost predicate ClearBelow(s: seq<bool>, n: int) {
    forall i :: 0 <= i < n && i < |s| ==> !s[i]
  }

  lemma {:induction false} CountUpdate(s: seq<bool>, n: nat, v: bool)
    requires n < |s|
    ensures Count(s[n := v]) == Count(s) - (if s[n] then 1 else 0) + (if v then 1 else 0)
  {
    var k := |s| - 1;
    if n == k {
      assert s[n := v][..k] == s[..k];
    } else {
      CountUpdate(s[..k], n, v);
      assert s[n := v][..k] == s[..k][n := v];
    }
  }

  lemma {:induction false} CountZero(s: seq<bool>)
    ensures Count(s) == 0 <==> forall i :: 0 <= i < |s| ==> !s[i]
  {
    if s != [] {
      CountZero(s[..|s| - 1]);
      assert forall i :: 0 <= i < |s| - 1 ==> s[..|s| - 1][i] == s[i];
    }
  }

  lemma {:induction false} CountPositive(s: seq<bool>) returns (n: nat)
    requires Count(s) > 0
    ensures n < |s| && s[n]
  {
    n := |s| - 1;
    if !s[n] {
      n := CountPositive(s[..n]);
    }
  }

  /** The first set bit of a word that is not zero. */
  method CountNtz(w: seq<bool>) returns (k: nat)
    requires true in w
    ensures Lowest(w, k)
  {
    k := 0;
    while !w[k]
      invariant k < |w| && forall i :: 0 <= i < k ==> !w[i]
      invariant exists i :: k <= i < |w| && w[i]
      decreases |w| - k
    {
      k := k + 1;
    }
  }

  /** The first set bit of the first word that is not zero is the first of all. */
  lemma WordLowest(s: seq<bool>, base: nat, k: nat)
    requires base + WORD_BITS <= |s| && ClearBelow(s, base) && Lowest(s[base..base + WORD_BITS], k)
    ensures Lowest(s, base + k)
  {
    var d := s[base..base + WORD_BITS];
    forall i | 0 <= i < base + k ensures !s[i] {
      if base <= i {
        assert d[i - base] == s[i];
      }
    }
  }

  lemma WordClear(s: seq<bool>, base: nat)
    requires base + WORD_BITS <= |s| && ClearBelow(s, base) && true !in s[base..base + WORD_BITS]
    ensures ClearBelow(s, base + WORD_BITS)
  {
    var d := s[base..base + WORD_BITS];
    forall i | 0 <= i < base + WORD_BITS ensures !s[i] {
      if base <= i {
        assert d[i - base] == s[i];
      }
    }
  }

  /** A free unit is found before the end when the units that count include one. */
  lemma LowestInside(s: seq<bool>, size: nat, n: nat)
    requires size <= |s| && Count(s[..size]) > 0 && Lowest(s, n)
    ensures n < size
  {
    var k := CountPositive(s[..size]);
    assert s[k];
  }

  lemma CountInside(s: seq<bool>, size: nat, n: nat, v: bool)
    requires n < size <= |s|
    ensures Count(s[n := v][..size]) == Count(s[..size]) - (if s[n] then 1 else 0) + (if v then 1 else 0)
  {
    CountUpdate(s[..size], n, v);
    assert s[n := v][..size] == s[..size][n := v];
  }
}
