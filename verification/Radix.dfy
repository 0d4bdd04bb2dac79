/** Byte strings as numbers in base 256, most significant byte first. */
module Radix {
  import opened Octets

  ghost function Pow(k: nat): (p: nat)
    ensures p >= 1
  {
    if k == 0 then 1 else 256 * Pow(k - 1)
  }

  ghost function Value(s: seq<Byte>): nat {
    if s == [] then 0 else 256 * Value(s[..|s| - 1]) + s[|s| - 1]
  }

  /** v without its k low digits. */
  ghost function Above(v: nat, k: nat): nat {
    if k == 0 then v else Above(v, k - 1) / 256
  }

  /** The k low digits of v. */
  ghost function Digits(v: nat, k: nat): (s: seq<Byte>)
    ensures |s| == k
  {
    if k == 0 then [] else [Above(v, k - 1) % 256] + Digits(v, k - 1)
  }

  ghost function Repeat(b: Byte, n: nat): (s: seq<Byte>)
    ensures |s| == n
  {
    seq(n, _ => b)
  }

  // ----- Products, one fact at a time -----

  lemma Scale(a: int, p: int)
    ensures a * (256 * p) == 256 * (a * p)
  {
  }

  lemma Distribute(a: int, b: int, p: int)
    ensures (a + b) * p == a * p + b * p
  {
  }

  lemma MulMonotone(a: nat, b: nat, p: nat)
    requires a <= b
    ensures a * p <= b * p
  {
  }

  lemma ScaledSum(a: int, b: int, p: int)
    ensures (256 * a + b) * p == 256 * (a * p) + b * p
  {
    Distribute(256 * a, b, p);
    assert (256 * a) * p == 256 * (a * p);
  }

  lemma DivBounds(v: nat, d: nat)
    requires d > 0
    ensures v == (v / d) * d + v % d && 0 <= v % d < d
  {
  }

  lemma DivBetween(v: nat, d: nat, lo: nat, hi: nat)
    requires d > 0 && lo * d <= v < hi * d
    ensures lo <= v / d < hi
  {
    var q := v / d;
    DivBounds(v, d);
    Distribute(q, 1, d);
    if q < lo { MulMonotone(q + 1, lo, d); }
    if hi <= q { MulMonotone(hi, q, d); }
  }

  lemma {:induction false} PowAdd(a: nat, b: nat)
    ensures Pow(a + b) == Pow(a) * Pow(b)
    decreases b
  {
    if b > 0 {
      PowAdd(a, b - 1);
      Scale(Pow(a), Pow(b - 1));
    }
  }

  // ----- Digits -----

  lemma FirstDigit(v: nat, k: nat)
    ensures Digits(v, k + 1) == [Above(v, k) % 256] + Digits(v, k)
  {
  }

  /** What lies above k digits is bounded as v itself is. */
  lemma {:induction false} AboveBetween(v: nat, k: nat, lo: nat, hi: nat)
    requires lo * Pow(k) <= v < hi * Pow(k)
    ensures lo <= Above(v, k) < hi
    decreases k
  {
    if k > 0 {
      Scale(lo, Pow(k - 1));
      Scale(hi, Pow(k - 1));
      ScaledSum(lo, 0, Pow(k - 1));
      ScaledSum(hi, 0, Pow(k - 1));
      AboveBetween(v, k - 1, 256 * lo, 256 * hi);
    }
  }

  lemma {:induction false} AboveLow(v: nat, b: Byte, k: nat)
    ensures Above(256 * v + b, k + 1) == Above(v, k)
    decreases k
  {
    if k == 0 {
      assert Above(256 * v + b, 0) == 256 * v + b;
    } else {
      AboveLow(v, b, k - 1);
    }
  }

  /** Digits may be peeled off at the low end too. */
  lemma {:induction false} DigitsLow(v: nat, b: Byte, k: nat)
    ensures Digits(256 * v + b, k + 1) == Digits(v, k) + [b]
  {
    if k == 0 {
      assert Digits(256 * v + b, 0) == [] && Above(256 * v + b, 0) == 256 * v + b;
    } else {
      DigitsLow(v, b, k - 1);
      AboveLow(v, b, k - 1);
    }
  }

  lemma {:induction false} DigitsOfValue(s: seq<Byte>)
    ensures Digits(Value(s), |s|) == s
  {
    if s != [] {
      var t := s[..|s| - 1];
      DigitsOfValue(t);
      DigitsLow(Value(t), s[|s| - 1], |t|);
    }
  }

  // ----- Values -----

  lemma ValueSnoc(s: seq<Byte>, b: Byte)
    ensures Value(s + [b]) == 256 * Value(s) + b
  {
    assert (s + [b])[..|s|] == s;
  }

  lemma ValueOne(b: Byte)
    ensures Value([b]) == b
  {
    assert [b][..0] == [];
  }

  lemma {:induction false} ValueConcat(s: seq<Byte>, t: seq<Byte>)
    ensures Value(s + t) == Value(s) * Pow(|t|) + Value(t)
    decreases |t|
  {
    if t == [] {
      assert s + t == s;
    } else {
      var t', b := t[..|t| - 1], t[|t| - 1];
      ValueConcat(s, t');
      assert s + t == (s + t') + [b];
      ValueSnoc(s + t', b);
      Scale(Value(s), Pow(|t'|));
    }
  }

  lemma ValueFirst(s: seq<Byte>)
    requires s != []
    ensures Value(s) == s[0] * Pow(|s| - 1) + Value(s[1..])
  {
    hide Value, Pow;
    assert s == [s[0]] + s[1..];
    ValueConcat([s[0]], s[1..]);
    ValueOne(s[0]);
  }

  lemma {:induction false} ValueRepeat(b: Byte, n: nat)
    requires b == 0 || b == 255
    ensures Value(Repeat(b, n)) == if b == 0 then 0 else Pow(n) - 1
  {
    if n > 0 {
      ValueRepeat(b, n - 1);
      assert Repeat(b, n) == Repeat(b, n - 1) + [b];
      ValueSnoc(Repeat(b, n - 1), b);
    }
  }
}
