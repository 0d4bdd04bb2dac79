/** The adaptive model as the coder stores it: a Fenwick array updated in place. */
module Fenwick {
  import opened FrequencyTable
  import opened LowBits

  class Frequency {
    const count: array<int>
    var sum: int
    var mid: nat
    ghost var table: seq<nat>

    /** Node i holds the sum of its block; entry 0 stands alone. */
    ghost predicate Valid()
      reads this, count
    {
      && |table| == count.Length == CHR_RANGE
      && mid == 128
      && sum == Total(table)
      && count[0] == table[0]
      && forall i :: 1 <= i < CHR_RANGE ==> Holds(i)
    }

    ghost predicate Holds(i: int)
      reads this, count
      requires 1 <= i < CHR_RANGE == |table| == count.Length
    {
      count[i] == Between(table, i - LowBit(i) + 1, i + 1)
    }

    constructor ()
      ensures Valid() && fresh(count)
      ensures table == Uniform()
    {
      count := new int[CHR_RANGE];
      sum := 0;
      mid := 1;
      new;
      while mid < CHR_RANGE / 2
        invariant mid in {1, 2, 4, 8, 16, 32, 64, 128} && sum == 0
        decreases 128 - mid
      {
        mid := mid * 2;
      }
      for i := 0 to CHR_RANGE
        invariant mid == 128 && sum == 0
        invariant forall j :: 0 <= j < i ==> count[j] == 0
      {
        count[i] := 0;
      }
      table := seq(CHR_RANGE, _ => 0);
      forall a: nat, b: nat | a <= b <= CHR_RANGE
        ensures Between(table, a, b) == 0
      {
        BetweenZeros(table, a, b);
      }
      for i := 0 to CHR_RANGE
        invariant Valid()
        invariant forall j :: 0 <= j < CHR_RANGE ==> table[j] == if j < i then 1 else 0
      {
        Inc(i, 1);
      }
      assert table == Uniform();
    }

    /** Adds n to one entry by walking up the nodes that cover it. */
    method Inc(ch: nat, n: int)
      requires Valid() && ch < CHR_RANGE && table[ch] + n >= 0
      modifies this`sum, this`table, count
      ensures Valid()
      ensures table == old(table)[ch := old(table)[ch] + n]
    {
      if ch > 0 {
        var c := ch;
        while c < CHR_RANGE
          invariant c > 0
          invariant count[0] == old(count[0])
          invariant forall i: nat :: 1 <= i < CHR_RANGE && Covers(i, c) ==> Covers(i, ch)
          invariant forall i: nat :: 1 <= i < CHR_RANGE ==>
            count[i] == old(count[i]) + if Covers(i, ch) && !Covers(i, c) then n else 0
          decreases CHR_RANGE - c
          modifies count
        {
          forall i: nat | 1 <= i < CHR_RANGE
            ensures Covers(i, c) <==> i == c || Covers(i, c + LowBit(c))
          {
            CoversStep(i, c);
          }
          count[c] := count[c] + n;
          c := c + LowBit(c);
        }
      } else {
        count[0] := count[0] + n;
      }
      sum := sum + n;
      table := table[ch := table[ch] + n];
      forall i: nat | 1 <= i < CHR_RANGE
        ensures count[i] == Between(old(table), i - LowBit(i) + 1, i + 1) + if Covers(i, ch) then n else 0
      {
        assert old(Holds(i));
      }
      Reestablish(old(table), ch, n);
    }

    /** The blocks of an updated table differ exactly at the nodes covering the entry. */
    lemma Reestablish(was: seq<nat>, ch: nat, n: int)
      requires |was| == count.Length == CHR_RANGE && ch < CHR_RANGE && was[ch] + n >= 0
      requires mid == 128 && sum == Total(was) + n
      requires table == was[ch := was[ch] + n]
      requires count[0] == was[0] + if ch == 0 then n else 0
      requires forall i: nat :: 1 <= i < CHR_RANGE ==>
        count[i] == Between(was, i - LowBit(i) + 1, i + 1) + if Covers(i, ch) then n else 0
      ensures Valid()
    {
      BetweenUpdate(was, ch, table[ch], 0, CHR_RANGE);
      forall i | 1 <= i < CHR_RANGE
        ensures Holds(i)
      {
        BetweenUpdate(was, ch, table[ch], i - LowBit(i) + 1, i + 1);
      }
    }

    /** The count of one symbol, read off the nodes below its own. */
    method Count(ch: nat) returns (n: int)
      requires Valid() && ch < CHR_RANGE
      ensures n == table[ch]
    {
      n := count[ch];
      if ch > 0 && ch % 2 == 0 {
        var i := ch - 1;
        var j := ch - LowBit(ch);
        assert Holds(ch);
        BetweenSplit(table, j + 1, i + 1, ch + 1);
        while i != j
          invariant j <= i < ch
          invariant n == Between(table, j + 1, i + 1) + table[ch]
          decreases i
        {
          BlockNests(ch, i);
          assert Holds(i);
          BetweenSplit(table, j + 1, i - LowBit(i) + 1, i + 1);
          n := n - count[i];
          i := i - LowBit(i);
        }
      } else if ch > 0 {
        assert Holds(ch) && Between(table, ch, ch) == 0;
      }
    }

    /** Cumulative count below a symbol. */
    method Calc(ch: nat) returns (n: int)
      requires Valid() && ch < CHR_RANGE
      ensures n == Cum(table, ch)
    {
      n := 0;
      if ch > 0 {
        n := count[0];
        var i := ch - 1;
        BetweenSplit(table, 0, 1, ch);
        while i > 0
          invariant 0 <= i < ch
          invariant n + Between(table, 1, i + 1) == Cum(table, ch)
        {
          assert Holds(i);
          BetweenSplit(table, 1, i - LowBit(i) + 1, i + 1);
          n := n + count[i];
          i := i - LowBit(i);
        }
      }
    }

    /** Finds the symbol whose interval holds the value by descending in halving steps. */
    method Descend(value: nat) returns (i: nat, n: nat)
      requires Valid()
      ensures i < CHR_RANGE && i == Locate(table, value) && n == Cum(table, i)
    {
      n := 0;
      i := 0;
      RootSum();
      Halvings();
      hide PowerOfTwo, Aligned, LowBit, Cum, Between, Valid;
      if count[0] <= value {
        var h := mid;
        n := count[0];
        assert Cum(table, i + 1) == n;
        while h > 0
          invariant h == 0 || PowerOfTwo(h)
          invariant if h == 0 then i < CHR_EOS else Aligned(i, 2 * h) && i + 2 * h <= CHR_EOS
          invariant n == Cum(table, i + 1) <= value
          invariant var next := if h == 0 then i + 1 else i + 2 * h;
                    next == CHR_EOS || value < Cum(table, next + 1)
          decreases h
        {
          var q := i + h;
          LowBitOfSum(i, h);
          NodeSum(i, h);
          if q < CHR_RANGE && n + count[q] <= value {
            n := n + count[q];
            i := q;
          }
          h := h / 2;
        }
        i := i + 1;
      }
      LocateUnique(table, value, i);
    }

    lemma RootSum()
      requires Valid()
      ensures |table| == count.Length == CHR_RANGE && mid == 128
      ensures Cum(table, 0) == 0 && Cum(table, 1) == count[0]
    {
    }

    lemma Halvings()
      ensures PowerOfTwo(128) && Aligned(0, 256)
    {
      assert Aligned(0, 16) && PowerOfTwo(8);
    }

    /** The node h above a multiple of 2 * h holds the next h entries. */
    lemma NodeSum(i: nat, h: nat)
      requires Valid() && 0 < h && i + h < CHR_RANGE && LowBit(i + h) == h
      ensures Cum(table, i + 1) + count[i + h] == Cum(table, i + h + 1)
    {
      assert Holds(i + h);
      CumSplit(table, i + 1, i + h + 1);
    }

    /** Counts one more occurrence of a symbol, halving every count at the limit. */
    method UpdateModel(ch: nat)
      requires Valid() && IsModel(table) && ch < CHR_RANGE
      modifies this`sum, this`table, count
      ensures Valid() && IsModel(table)
      ensures table == Update(old(table), ch)
    {
      UpdateKeepsModel(table, ch);
      Inc(ch, FREQ_INC);
      if sum >= FREQ_LIMIT {
        ghost var full := table;
        for i := 0 to CHR_RANGE
          invariant Valid()
          invariant forall j :: 0 <= j < CHR_RANGE ==>
            table[j] == if j < i then full[j] - full[j] / 2 else full[j]
        {
          var c := Count(i);
          var n := c / 2;
          if n > 0 {
            Inc(i, -n);
          }
        }
        assert table == Halve(full);
      }
    }
  }

  lemma {:induction false} BetweenZeros(f: seq<nat>, a: nat, b: nat)
    requires a <= b <= |f|
    requires forall i :: a <= i < b ==> f[i] == 0
    ensures Between(f, a, b) == 0
  {
    if a < b {
      BetweenZeros(f, a, b - 1);
    }
  }
}
