/** The block allocator of the TFS file system: a bitmap on disk, a free count and a moving hand. */
module TfsAllocator {
  import opened Bitmap

  /** Where a block's bit is: in words when allocating, in bytes when freeing. */
  function WordPosition(units: nat, i: nat, j: nat, k: nat): nat {
    (i * units + j) * WORD_BITS + k
  }

  function BytePosition(units: nat, i: nat, j: nat, k: nat): nat {
    (i * (4 * units) + j) * 8 + k
  }

  /** Both ways of finding the bit of block `n` lead to the same bit. */
  lemma SameBit(units: nat, n: nat)
    requires units > 0
    ensures BytePosition(units, n / 8 / (4 * units), n / 8 % (4 * units), n % 8) == n
    ensures WordPosition(units, n / WORD_BITS / units, n / WORD_BITS % units, n % WORD_BITS) == n
  {
    DivMod(n / 8, 4 * units);
    DivMod(n / WORD_BITS, units);
  }

  lemma DivMod(a: nat, b: nat)
    requires b > 0
    ensures a / b * b + a % b == a
  {
  }

  /** The block of the bitmap that holds the hand is the same counted in bytes or in words. */
  lemma HandBlock(units: nat, hand: nat)
    requires units > 0
    ensures hand / 8 / (4 * units) == hand / WORD_BITS / units
  {
    var w := hand / WORD_BITS;
    assert hand / 8 == 4 * w + hand / 8 % 4;
    DivMod(w, units);
    QuotientBy4(w, hand / 8 % 4, w / units, w % units, units);
  }

  lemma QuotientBy4(w: nat, r: nat, q: nat, m: nat, units: nat)
    requires units > 0 && w == q * units + m && m < units && r < 4
    ensures (4 * w + r) / (4 * units) == q
  {
    assert 4 * w + r == q * (4 * units) + (4 * m + r);
    Quotient(q, 4 * m + r, 4 * units);
  }

  lemma Quotient(q: nat, r: nat, d: nat)
    requires r < d
    ensures (q * d + r) / d == q
  {
    var x := q * d + r;
    DivMod(x, d);
    if x / d < q {
      Steps(x / d, q, d);
    } else if x / d > q {
      Steps(q, x / d, d);
    }
  }

  lemma Steps(a: nat, b: nat, d: nat)
    requires a < b
    ensures a * d + d <= b * d
  {
    var c := b - a - 1;
    assert b == a + 1 + c;
    assert b * d == a * d + d + c * d;
  }

  /** Nothing is free below the hand or below the data blocks, and the count is of the free blocks there are. */
  ghost predicate Counted(free: seq<bool>, freeBlocks: nat, hand: nat, dblkno: nat, fsSize: nat) {
    && 0 < dblkno && fsSize <= |free| && hand <= |free| && ClearBelow(free, hand) && ClearBelow(free, dblkno)
    && freeBlocks == Count(free[..fsSize])
  }

  lemma AllocateKeeps(free: seq<bool>, freeBlocks: nat, hand: nat, dblkno: nat, fsSize: nat, b: nat)
    requires Counted(free, freeBlocks, hand, dblkno, fsSize) && freeBlocks > 0 && Lowest(free, b)
    ensures dblkno <= b < fsSize
    ensures Counted(free[b := false], freeBlocks - 1, b + 1, dblkno, fsSize)
  {
    LowestInside(free, fsSize, b);
    CountInside(free, fsSize, b, false);
  }

  lemma ReleaseKeeps(free: seq<bool>, freeBlocks: nat, hand: nat, dblkno: nat, fsSize: nat, b: nat)
    requires Counted(free, freeBlocks, hand, dblkno, fsSize) && dblkno <= b < fsSize && !free[b]
    ensures Counted(free[b := true], freeBlocks + 1, if b < hand then b else hand, dblkno, fsSize)
  {
    CountInside(free, fsSize, b, true);
  }

  class Blocks {
    const units: nat
    const maps: nat
    const dblkno: nat
    const fsSize: nat
    var free: seq<bool>
    var freeBlocks: nat
    var hand: nat

    ghost predicate Valid()
      reads this
    {
      units > 0 && |free| == maps * units * WORD_BITS && Counted(free, freeBlocks, hand, dblkno, fsSize)
    }

    constructor (units: nat, maps: nat, dblkno: nat, fsSize: nat, free: seq<bool>, hand: nat)
      requires units > 0 && |free| == maps * units * WORD_BITS && 0 < dblkno && fsSize <= |free| && hand <= |free|
      requires ClearBelow(free, hand) && ClearBelow(free, dblkno)
      ensures Valid() && this.units == units && this.dblkno == dblkno && this.fsSize == fsSize
      ensures this.free == free && this.hand == hand
    {
      this.units, this.maps, this.dblkno, this.fsSize := units, maps, dblkno, fsSize;
      this.free, this.hand, this.freeBlocks := free, hand, Count(free[..fsSize]);
    }

    /** Scans the words of one bitmap block, which begin at word `row`, from the given one on. */
    method SearchWords(row: nat, from: nat) returns (j: nat)
      requires Valid() && (row + units) * WORD_BITS <= |free|
      requires from <= units && ClearBelow(free, (row + from) * WORD_BITS)
      ensures from <= j <= units && ClearBelow(free, (row + j) * WORD_BITS)
      ensures j < units ==> true in free[(row + j) * WORD_BITS..(row + j) * WORD_BITS + WORD_BITS]
    {
      hide ClearBelow, Counted;
      j := from;
      while j < units
        invariant from <= j <= units && ClearBelow(free, (row + j) * WORD_BITS)
      {
        var base := (row + j) * WORD_BITS;
        if true in free[base..base + WORD_BITS] {
          return;
        }
        WordClear(free, base);
        j := j + 1;
      }
    }

    /** The bitmap block and word of the hand: nothing is free before that word. */
    method Start() returns (i: nat, row: nat, from: nat)
      requires Valid()
      ensures row == i * units && from < units && ClearBelow(free, (row + from) * WORD_BITS)
    {
      HandBlock(units, hand);
      HandWord(free, units, hand);
      i := hand / 8 / (4 * units);
      row := i * units;
      from := hand / WORD_BITS % units;
    }

    /** The words of a bitmap block of the image are in the bitmap, and the next block's follow. */
    lemma RowFits(i: nat, row: nat)
      requires Valid() && i < maps && row == i * units
      ensures (row + units) * WORD_BITS <= |free| && row + units == (i + 1) * units
    {
      Steps(i, maps, units);
      NextRow(i, units);
    }

    /** Scans the bitmap from the hand on; some block is free. */
    method Search() returns (b: nat)
      requires Valid() && freeBlocks > 0
      ensures Lowest(free, b)
    {
      hide Counted, Lowest, Count, ClearBelow, WordPosition;
      b := 0;
      var i, row, from := Start();
      while i < maps
        invariant 0 <= i && 0 <= row == i * units && 0 <= from < units && ClearBelow(free, (row + from) * WORD_BITS)
        decreases maps - i
      {
        RowFits(i, row);
        var j := SearchWords(row, from);
        if j < units {
          b := FirstBit(i, row, j);
          return;
        }
        i, row, from := i + 1, row + units, 0;
      }
      SomeFree(i, row, from);
      assert false;
    }

    lemma SomeFree(i: nat, row: nat, from: nat)
      requires Valid() && freeBlocks > 0 && row == i * units && ClearBelow(free, (row + from) * WORD_BITS)
      ensures i < maps
    {
      ScanEnds(free, fsSize, i, row, from, maps, units);
    }

    /** The first set bit of a word. */
    method FirstBit(i: nat, row: nat, j: nat) returns (b: nat)
      requires Valid() && row == i * units && (row + j) * WORD_BITS + WORD_BITS <= |free|
      requires ClearBelow(free, (row + j) * WORD_BITS)
      requires true in free[(row + j) * WORD_BITS..(row + j) * WORD_BITS + WORD_BITS]
      ensures Lowest(free, b)
    {
      var base := (row + j) * WORD_BITS;
      var k := CountNtz(free[base..base + WORD_BITS]);
      WordLowest(free, base, k);
      b := WordPosition(units, i, j, k);
    }

    /** The lowest free block, or 0 when none is left. */
    method Allocate() returns (b: nat)
      requires Valid()
      modifies this
      ensures Valid() && (b == 0 <==> old(freeBlocks) == 0)
      ensures b == 0 ==> free == old(free) && freeBlocks == old(freeBlocks)
      ensures b != 0 ==> Lowest(old(free), b) && dblkno <= b < fsSize && free == old(free)[b := false]
      ensures b != 0 ==> freeBlocks == old(freeBlocks) - 1
    {
      if freeBlocks == 0 {
        return 0;
      }
      b := Search();
      AllocateKeeps(free, freeBlocks, hand, dblkno, fsSize, b);
      hide Counted, Lowest;
      free := free[b := false];
      freeBlocks := freeBlocks - 1;
      hand := b + 1;
    }

    /** Frees a block in use; blocks below the data are refused. */
    method Deallocate(b: nat) returns (ok: bool)
      requires Valid() && b < fsSize && (b >= dblkno ==> !free[b])
      modifies this
      ensures Valid() && ok == (b >= dblkno)
      ensures free == (if ok then old(free)[b := true] else old(free))
      ensures freeBlocks == old(freeBlocks) + if ok then 1 else 0
    {
      if b < dblkno {
        return false;
      }
      hide BytePosition, WordPosition, ClearBelow;
      var bit := BytePosition(units, b / 8 / (4 * units), b / 8 % (4 * units), b % 8);
      SameBit(units, b);
      ReleaseKeeps(free, freeBlocks, hand, dblkno, fsSize, b);
      hide Counted;
      free := free[bit := true];
      freeBlocks := freeBlocks + 1;
      if b < hand {
        hand := b;
      }
      ok := true;
    }
  }

  lemma HandWord(free: seq<bool>, units: nat, hand: nat)
    requires units > 0 && ClearBelow(free, hand)
    ensures ClearBelow(free, (hand / WORD_BITS / units * units + hand / WORD_BITS % units) * WORD_BITS)
  {
    DivMod(hand / WORD_BITS, units);
  }

  lemma StillFree(free: seq<bool>, fsSize: nat, n: nat)
    requires fsSize <= |free| && Count(free[..fsSize]) > 0 && ClearBelow(free, n)
    ensures n < |free|
  {
    var k := CountPositive(free[..fsSize]);
    assert free[k];
  }

  lemma ScanEnds(free: seq<bool>, fsSize: nat, i: nat, row: nat, from: nat, maps: nat, units: nat)
    requires fsSize <= |free| && Count(free[..fsSize]) > 0 && |free| == maps * units * WORD_BITS
    requires row == i * units && ClearBelow(free, (row + from) * WORD_BITS)
    ensures i < maps
  {
    if i >= maps {
      Scanned(i, maps, units);
    }
    StillFree(free, fsSize, (row + from) * WORD_BITS);
  }

  lemma NextRow(i: nat, units: nat)
    ensures (i + 1) * units == i * units + units
  {
  }

  lemma Scanned(i: nat, maps: nat, units: nat)
    requires i >= maps
    ensures i * units >= maps * units
  {
    if i > maps {
      Steps(maps, i, units);
    }
  }
}
