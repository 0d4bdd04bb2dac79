/** The adaptive frequency model of the range coder as a plain table of counts, one
    per symbol: 256 byte values and an end-of-stream mark.  The Fenwick array of
    Fenwick.dfy is proved to represent such a table. */
module FrequencyTable {
  const CHR_RANGE := 257
  const CHR_EOS := 256
  const FREQ_INC := 4
  const FREQ_LIMIT := 0x8000

  /** Sum of the counts of the symbols in [lo, hi). */
  ghost function Between(f: seq<nat>, lo: nat, hi: nat): nat
    requires lo <= hi <= |f|
  {
    if lo == hi then 0 else Between(f, lo, hi - 1) + f[hi - 1]
  }

  /** Cumulative count below symbol c. */
  ghost function Cum(f: seq<nat>, c: nat): nat
    requires c <= |f|
  {
    Between(f, 0, c)
  }

  ghost function Total(f: seq<nat>): nat {
    Cum(f, |f|)
  }

  /** Every symbol stays encodable, and the total stays under the limit. */
  ghost predicate IsModel(f: seq<nat>) {
    && |f| == CHR_RANGE
    && (forall i :: 0 <= i < |f| ==> f[i] >= 1)
    && Total(f) < FREQ_LIMIT
  }

  /** Every symbol equally likely, as before anything has been seen. */
  ghost function Uniform(): seq<nat> {
    seq(CHR_RANGE, _ => 1)
  }

  ghost function Halve(f: seq<nat>): (r: seq<nat>)
    ensures |r| == |f|
  {
    seq(|f|, i requires 0 <= i < |f| => f[i] - f[i] / 2)
  }

  /** The table after symbol c has been seen. */
  ghost function Update(f: seq<nat>, c: nat): seq<nat>
    requires c < |f|
  {
    var g := f[c := f[c] + FREQ_INC];
    if Total(g) >= FREQ_LIMIT then Halve(g) else g
  }

  /** The symbol whose cumulative interval holds v; end of stream when v is past the total. */
  ghost function Locate(f: seq<nat>, v: nat): nat
    requires |f| == CHR_RANGE
  {
    LocateFrom(f, v, 0)
  }

  ghost function LocateFrom(f: seq<nat>, v: nat, i: nat): nat
    requires |f| == CHR_RANGE && i < CHR_RANGE
    decreases CHR_RANGE - i
  {
    if i == CHR_EOS || v < Cum(f, i + 1) then i else LocateFrom(f, v, i + 1)
  }

  /** Only the symbol seen gains, unless the total reaches the limit: then the upper half of every count is kept. */
  lemma UpdateMeans(f: seq<nat>, c: nat)
    requires c < |f|
    ensures |Update(f, c)| == |f|
    ensures forall i :: 0 <= i < |f| ==>
      var n := if i == c then f[i] + FREQ_INC else f[i];
      if Total(f) + FREQ_INC < FREQ_LIMIT then Update(f, c)[i] == n else n <= 2 * Update(f, c)[i] <= n + 1
  {
    BetweenUpdate(f, c, f[c] + FREQ_INC, 0, |f|);
  }

  lemma {:induction false} BetweenSplit(f: seq<nat>, a: nat, b: nat, c: nat)
    requires a <= b <= c <= |f|
    ensures Between(f, a, c) == Between(f, a, b) + Between(f, b, c)
  {
    if b < c {
      BetweenSplit(f, a, b, c - 1);
    }
  }

  lemma {:induction false} BetweenUpdate(f: seq<nat>, i: nat, v: nat, a: nat, b: nat)
    requires i < |f| && a <= b <= |f|
    ensures Between(f[i := v], a, b) == Between(f, a, b) + if a <= i < b then v - f[i] else 0
  {
    if a < b {
      BetweenUpdate(f, i, v, a, b - 1);
    }
  }

  lemma {:induction false} BetweenAtLeast(f: seq<nat>, a: nat, b: nat)
    requires a <= b <= |f|
    requires forall i :: a <= i < b ==> f[i] >= 1
    ensures Between(f, a, b) >= b - a
  {
    if a < b {
      BetweenAtLeast(f, a, b - 1);
    }
  }

  lemma {:induction false} BetweenHalve(f: seq<nat>, a: nat, b: nat)
    requires a <= b <= |f|
    ensures 2 * Between(Halve(f), a, b) <= Between(f, a, b) + (b - a)
  {
    if a < b {
      BetweenHalve(f, a, b - 1);
    }
  }

  lemma {:induction false} BetweenOnes(f: seq<nat>, a: nat, b: nat)
    requires a <= b <= |f|
    requires forall i :: a <= i < b ==> f[i] == 1
    ensures Between(f, a, b) == b - a
  {
    if a < b {
      BetweenOnes(f, a, b - 1);
    }
  }

  lemma OnesAreModel(f: seq<nat>)
    requires |f| == CHR_RANGE && forall i :: 0 <= i < |f| ==> f[i] == 1
    ensures IsModel(f)
  {
    BetweenOnes(f, 0, |f|);
  }

  lemma UniformIsModel()
    ensures IsModel(Uniform())
  {
    OnesAreModel(Uniform());
  }

  /** No symbol ever becomes unencodable and the total never reaches the limit. */
  lemma UpdateKeepsModel(f: seq<nat>, c: nat)
    requires IsModel(f) && c < CHR_RANGE
    ensures IsModel(Update(f, c))
  {
    var g := f[c := f[c] + FREQ_INC];
    BetweenUpdate(f, c, f[c] + FREQ_INC, 0, |f|);
    if Total(g) >= FREQ_LIMIT {
      BetweenHalve(g, 0, |g|);
    }
  }

  /** A symbol's own interval lies inside the total, and leaves room for the others. */
  lemma IntervalInside(f: seq<nat>, c: nat)
    requires IsModel(f) && c < CHR_RANGE
    ensures Cum(f, c) + f[c] == Cum(f, c + 1) <= Total(f)
    ensures f[c] < Total(f)
  {
    BetweenSplit(f, 0, c + 1, |f|);
    if c == 0 {
      BetweenAtLeast(f, 1, |f|);
    } else {
      BetweenAtLeast(f, 0, c);
    }
  }

  lemma CumSplit(f: seq<nat>, a: nat, b: nat)
    requires a <= b <= |f|
    ensures Cum(f, b) == Cum(f, a) + Between(f, a, b)
  {
    BetweenSplit(f, 0, a, b);
  }

  lemma {:induction false} CumMonotone(f: seq<nat>, a: nat, b: nat)
    requires a <= b <= |f|
    ensures Cum(f, a) <= Cum(f, b)
  {
    BetweenSplit(f, 0, a, b);
  }

  /** Locate is the unique symbol whose interval holds the value. */
  lemma {:induction false} LocateFromFinds(f: seq<nat>, v: nat, i: nat, c: nat)
    requires |f| == CHR_RANGE && i <= c < CHR_RANGE
    requires Cum(f, c) <= v
    requires c == CHR_EOS || v < Cum(f, c + 1)
    ensures LocateFrom(f, v, i) == c
    decreases c - i
  {
    if i < c {
      CumMonotone(f, i + 1, c);
      LocateFromFinds(f, v, i + 1, c);
    }
  }

  lemma LocateUnique(f: seq<nat>, v: nat, c: nat)
    requires |f| == CHR_RANGE && c < CHR_RANGE
    requires Cum(f, c) <= v
    requires c == CHR_EOS || v < Cum(f, c + 1)
    ensures Locate(f, v) == c
  {
    LocateFromFinds(f, v, 0, c);
  }

  lemma {:induction false} LocateFromBounds(f: seq<nat>, v: nat, i: nat)
    requires |f| == CHR_RANGE && i < CHR_RANGE && Cum(f, i) <= v
    ensures var c := LocateFrom(f, v, i);
            c < CHR_RANGE && Cum(f, c) <= v && (c == CHR_EOS || v < Cum(f, c + 1))
    decreases CHR_RANGE - i
  {
    if i < CHR_EOS && v >= Cum(f, i + 1) {
      LocateFromBounds(f, v, i + 1);
    }
  }
}
