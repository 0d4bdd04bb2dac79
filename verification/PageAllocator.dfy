/** The kernel's page allocator. */
module PageAllocator {
  import opened Bitmap

  class MemoryMap {
    const bits: array<bool>
    const numBlocks: nat
    var clockBlock: nat
    var restPages: nat

    ghost predicate Valid()
      reads this, bits
    {
      && bits.Length == numBlocks * WORD_BITS && clockBlock <= numBlocks
      && restPages == Count(bits[..]) && ClearBelow(bits[..], clockBlock * WORD_BITS)
    }

    constructor (blocks: nat)
      ensures Valid() && restPages == 0 && numBlocks == blocks
      ensures fresh(bits)
    {
      numBlocks := blocks;
      bits := new bool[blocks * WORD_BITS](_ => false);
      clockBlock := blocks;
      restPages := 0;
      new;
      CountZero(bits[..]);
    }

    /** Scans the words from the clock on for the first that is not zero. */
    method Search() returns (i: nat)
      requires Valid() && restPages > 0
      ensures i < numBlocks && bits.Length == numBlocks * WORD_BITS && (i + 1) * WORD_BITS <= bits.Length
      ensures ClearBelow(bits[..], i * WORD_BITS) && true in bits[i * WORD_BITS..(i + 1) * WORD_BITS]
    {
      i := clockBlock;
      CountZero(bits[..]);
      while i < numBlocks
        invariant clockBlock <= i <= numBlocks && ClearBelow(bits[..], i * WORD_BITS)
      {
        var base := i * WORD_BITS;
        WordFits(i, numBlocks);
        var d := bits[base..base + WORD_BITS];
        if true in d {
          return;
        }
        assert bits[..][base..base + WORD_BITS] == d;
        WordClear(bits[..], base);
        i := i + 1;
      }
    }

    /** The lowest free page, or none when no page is free. */
    method Palloc() returns (page: int)
      requires Valid()
      modifies bits, this`clockBlock, this`restPages
      ensures Valid()
      ensures page == -1 <==> old(restPages) == 0
      ensures page == -1 ==> bits[..] == old(bits[..]) && restPages == old(restPages)
      ensures page != -1 ==> page >= 0 && Lowest(old(bits[..]), page) && bits[..] == old(bits[..])[page := false]
      ensures page != -1 ==> restPages == old(restPages) - 1
    {
      if restPages == 0 {
        return -1;
      }
      var i := Search();
      var base := i * WORD_BITS;
      var d := bits[base..base + WORD_BITS];
      var bit := CountNtz(d);
      page := base + bit;
      ghost var before := bits[..];
      assert before[base..base + WORD_BITS] == d;
      WordLowest(before, base, bit);
      CountUpdate(before, page, false);
      bits[page] := false;
      ghost var after := before[page := false];
      assert bits[..] == after;
      var e := bits[base..base + WORD_BITS];
      assert after[base..base + WORD_BITS] == e;
      if true in e {
        clockBlock := i;
      } else {
        WordClear(after, base);
        clockBlock := i + 1;
      }
      restPages := restPages - 1;
    }

    /** Frees a page; one outside the map, or already free, is left alone. */
    method Pfree(page: nat)
      requires Valid()
      modifies bits, this`clockBlock, this`restPages
      ensures Valid()
      ensures page < bits.Length && !old(bits[..])[page] ==>
        bits[..] == old(bits[..])[page := true] && restPages == old(restPages) + 1
      ensures page >= bits.Length || old(bits[..])[page] ==> bits[..] == old(bits[..]) && restPages == old(restPages)
    {
      var i := page / WORD_BITS;
      if i >= numBlocks {
        return;
      }
      WordFits(i, numBlocks);
      if bits[page] {
        return;
      }
      CountUpdate(bits[..], page, true);
      bits[page] := true;
      assert bits[..] == old(bits[..])[page := true];
      if i < clockBlock {
        WordFits(i, clockBlock);
        clockBlock := i;
      }
      restPages := restPages + 1;
    }
  }

  lemma WordFits(i: nat, n: nat)
    requires i < n
    ensures i * WORD_BITS + WORD_BITS <= n * WORD_BITS
  {
  }
}
