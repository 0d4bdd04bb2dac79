/** Arithmetic of the binary indexed tree: lowest set bits and the blocks they span. */
module LowBits {
  /** c & -c: the largest power of two that divides c. */
  function LowBit(c: nat): (r: nat)
    requires c > 0
    ensures 1 <= r <= c
  {
    if c % 2 == 1 then 1 else 2 * LowBit(c / 2)
  }

  /** Node i of the tree holds the sum of the entries in (i - LowBit(i), i]. */
  predicate Covers(i: nat, c: nat)
    requires i > 0
  {
    i - LowBit(i) < c <= i
  }

  /** The walk c, c + LowBit(c), ... visits exactly the nodes that cover c. */
  lemma {:induction false} CoversStep(i: nat, c: nat)
    requires i > 0 && c > 0
    ensures Covers(i, c) <==> i == c || Covers(i, c + LowBit(c))
    decreases c
  {
    if c % 2 == 0 && i % 2 == 0 {
      CoversStep(i / 2, c / 2);
      assert (c + LowBit(c)) % 2 == 0;
    }
  }

  /** Blocks nest: a node inside the block of c does not reach below that block. */
  lemma {:induction false} BlockNests(c: nat, i: nat)
    requires c > 0 && c - LowBit(c) < i < c
    ensures i - LowBit(i) >= c - LowBit(c)
    decreases c
  {
    if c % 2 == 0 && i % 2 == 0 {
      BlockNests(c / 2, i / 2);
    }
  }

  predicate PowerOfTwo(h: nat) {
    h == 1 || (h > 1 && h % 2 == 0 && PowerOfTwo(h / 2))
  }

  /** i is a multiple of the power of two m. */
  predicate Aligned(i: nat, m: nat) {
    m <= 1 || (i % 2 == 0 && Aligned(i / 2, m / 2))
  }

  /** Adding a power of two h to a multiple of 2 * h makes h the lowest set bit. */
  lemma {:induction false} LowBitOfSum(i: nat, h: nat)
    requires PowerOfTwo(h)
    requires Aligned(i, 2 * h)
    ensures LowBit(i + h) == h && Aligned(i, h) && Aligned(i + h, h)
    ensures h == 1 || (2 * (h / 2) == h && PowerOfTwo(h / 2))
    decreases h
  {
    if h > 1 {
      LowBitOfSum(i / 2, h / 2);
      assert (i + h) / 2 == i / 2 + h / 2;
    }
  }
}
