/** What the blocks of a file amount to: a run of blocks with no holes, and the bytes in them. */
module TfsFiles {
  import opened Octets
  import opened TfsAllocator
  import opened TfsSlots

  function Quo(a: nat, b: nat): nat
    requires b > 0
  {
    a / b
  }

  function Rem(a: nat, b: nat): (r: nat)
    requires b > 0
    ensures r < b
  {
    a % b
  }

  lemma QuoRem(a: nat, b: nat)
    requires b > 0
    ensures Quo(a, b) * b + Rem(a, b) == a
  {
    DivMod(a, b);
  }

  /** A quotient and a remainder are all there is to a number. */
  lemma QuoUnique(a: nat, b: nat, q: nat, r: nat)
    requires b > 0 && a == q * b + r && r < b
    ensures Quo(a, b) == q && Rem(a, b) == r
  {
    Quotient(q, r, b);
    DivMod(a, b);
  }

  function BlockNo(s: Fs, units: nat, ino: nat, nth: nat): nat
    requires units > 0
  {
    At(s, Data(ino, Quo(nth, units), Rem(nth, units)))
  }

  /** How many blocks a file of this size takes. */
  function CalcBlocks(bsize: nat, size: nat): nat
    requires bsize > 0
  {
    Quo(size + bsize - 1, bsize)
  }

  /** The file has exactly its first `n` blocks, and just the second-level blocks they need. */
  ghost predicate Dense(s: Fs, first: nat, units: nat, ino: nat, n: nat)
    requires units > 0
  {
    && n <= first * units
    && (forall nth: nat :: nth < first * units ==> (BlockNo(s, units, ino, nth) != 0 <==> nth < n))
    && forall i: nat :: i < first ==> (Entry(s.inodes, ino, i) != 0 <==> i * units < n)
  }

  /** The raw bytes of a block, whatever it was used for. */
  function AsBytes(block: Block, bsize: nat): (r: seq<Byte>)
    ensures |r| == bsize
  {
    if block.Bytes? && |block.bytes| == bsize then block.bytes
    else seq(bsize, k requires 0 <= k < bsize => if block.Refs?
      && k / 4 < |block.refs| then Octet(block.refs[k / 4], k % 4) else 0)
  }

  function Octet(n: nat, k: nat): Byte {
    if k == 0 then n % 256 else Octet(n / 256, k - 1)
  }

  function BlockOf(s: Fs, b: nat): Block {
    if b in s.disk then s.disk[b] else Bytes([])
  }

  function ByteAt(s: Fs, units: nat, ino: nat, k: nat): Byte
    requires units > 0
  {
    AsBytes(BlockOf(s, BlockNo(s, units, ino, Quo(k, 4 * units))), 4 * units)[Rem(k, 4 * units)]
  }

  function Content(s: Fs, units: nat, ino: nat): (r: seq<Byte>)
    requires units > 0 && ino in s.inodes
    ensures |r| == s.inodes[ino].size
  {
    seq(s.inodes[ino].size, k requires k >= 0 => ByteAt(s, units, ino, k))
  }

  /** Apart from one slot, every data slot names the same block with the same contents. */
  ghost predicate SameBut(s: Fs, t: Fs, x: Slot) {
    forall y: Slot :: y.Data? && y != x ==> At(t, y) == At(s, y) && BlockOf(t, At(t, y)) == BlockOf(s, At(s, y))
  }

  lemma SameTrans(s: Fs, t: Fs, u: Fs, x: Slot)
    requires SameBut(s, t, x) && SameBut(t, u, x)
    ensures SameBut(s, u, x)
  {
    hide At, BlockOf;
  }

  /** A block outside the image, or owned by another kind of slot, is not a data block. */
  lemma SetBlockSame(s: Fs, owner: map<nat, Slot>, b: nat, block: Block, x: Slot)
    requires Owned(s, owner) && b != 0 && (b in owner ==> owner[b] == x || !owner[b].Data?)
    requires forall y: Slot :: y.Data? ==> At(SetBlock(s, b, block), y) == At(s, y)
    ensures SameBut(s, SetBlock(s, b, block), x)
  {
    var t := SetBlock(s, b, block);
    forall y: Slot | y.Data? && y != x ensures At(t, y) == At(s, y) && BlockOf(t, At(t, y)) == BlockOf(s, At(s, y)) {
      assert At(s, y) != b;
    }
  }

  lemma ByteSame(s: Fs, t: Fs, units: nat, x: Slot, ino: nat, k: nat)
    requires units > 0 && SameBut(s, t, x)
    requires x != Data(ino, Quo(Quo(k, 4 * units), units), Rem(Quo(k, 4 * units), units))
    ensures ByteAt(t, units, ino, k) == ByteAt(s, units, ino, k)
  {
    hide At, BlockOf, AsBytes;
  }

  // --- division of a block's number

  lemma NthOf(i: nat, j: nat, units: nat)
    requires j < units
    ensures Quo(i * units + j, units) == i && Rem(i * units + j, units) == j
  {
    QuoUnique(i * units + j, units, i, j);
  }

  lemma NthFits(nth: nat, first: nat, units: nat)
    requires units > 0
    ensures nth < first * units <==> Quo(nth, units) < first
  {
    QuoRem(nth, units);
    if Quo(nth, units) < first {
      Steps(Quo(nth, units), first, units);
    } else if first < Quo(nth, units) {
      Steps(first, Quo(nth, units), units);
    }
  }

  lemma SameNth(a: nat, b: nat, units: nat)
    requires units > 0 && Quo(a, units) == Quo(b, units) && Rem(a, units) == Rem(b, units)
    ensures a == b
  {
    QuoRem(a, units);
    QuoRem(b, units);
  }

  // --- growing and shrinking by one block

  /** Naming block `n` extends a file of `n` blocks. */
  lemma DenseGrows(s: Fs, t: Fs, first: nat, units: nat, ino: nat, n: nat)
    requires units > 0 && Dense(s, first, units, ino, n) && n < first * units
    requires forall i: nat :: i < first ==>
      (Entry(t.inodes, ino, i) != 0 <==> Entry(s.inodes, ino, i) != 0 || i == Quo(n, units))
    requires forall nth: nat :: nth != n ==> BlockNo(t, units, ino, nth) == BlockNo(s, units, ino, nth)
    requires BlockNo(t, units, ino, n) != 0
    ensures Dense(t, first, units, ino, n + 1)
  {
    hide BlockNo, Entry;
    forall i: nat | i < first ensures Entry(t.inodes, ino, i) != 0 <==> i * units < n + 1 {
      EntryNeeded(i, n, units);
    }
  }

  /** Entry `i` is needed by block `n` or by an earlier one exactly when block `n` lies behind its start. */
  lemma EntryNeeded(i: nat, n: nat, units: nat)
    requires units > 0
    ensures i * units < n + 1 <==> i * units < n || i == Quo(n, units)
    ensures i < Quo(n, units) ==> i * units < n
  {
    QuoRem(n, units);
    if i < Quo(n, units) {
      Steps(i, Quo(n, units), units);
    } else if i > Quo(n, units) {
      Steps(Quo(n, units), i, units);
    }
  }

  lemma DenseSame(s: Fs, t: Fs, first: nat, units: nat, ino: nat, n: nat)
    requires units > 0 && Dense(s, first, units, ino, n)
    requires forall y: Slot :: y.ino == ino ==> At(t, y) == At(s, y)
    ensures Dense(t, first, units, ino, n)
  {
    forall i: nat ensures Entry(t.inodes, ino, i) == Entry(s.inodes, ino, i) {
      assert At(t, Second(ino, i)) == At(s, Second(ino, i));
    }
    forall nth: nat ensures BlockNo(t, units, ino, nth) == BlockNo(s, units, ino, nth) {
      assert Data(ino, Quo(nth, units), Rem(nth, units)).ino == ino;
    }
    hide BlockNo, Entry;
  }
}
