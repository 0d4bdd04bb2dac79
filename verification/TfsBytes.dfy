/** Reading and writing a file block by block amounts to reading and writing its bytes. */
module TfsBytes {
  import opened Octets
  import opened TfsAllocator
  import opened TfsSlots
  import opened TfsFiles

  lemma CalcFits(bsize: nat, size: nat)
    requires bsize > 0
    ensures size <= CalcBlocks(bsize, size) * bsize
    ensures CalcBlocks(bsize, size) > 0 ==> (CalcBlocks(bsize, size) - 1) * bsize < size
    ensures CalcBlocks(bsize, size) == 0 <==> size == 0
  {
    var n := CalcBlocks(bsize, size);
    QuoRem(size + bsize - 1, bsize);
    if n > 0 {
      assert (n - 1) * bsize == n * bsize - bsize;
    }
    if size > 0 && n == 0 {
      assert false;
    }
    if size == 0 && n > 0 {
      Steps(0, n, bsize);
    }
  }

  lemma Before(n: nat, bsize: nat)
    ensures (n - 1) * bsize == n * bsize - bsize
  {
  }

  lemma CalcUnique(bsize: nat, size: nat, n: nat)
    requires bsize > 0 && size <= n * bsize && (n > 0 ==> (n - 1) * bsize < size)
    ensures CalcBlocks(bsize, size) == n
  {
    CalcFits(bsize, size);
    var m := CalcBlocks(bsize, size);
    Before(m, bsize);
    Before(n, bsize);
    if m < n {
      Steps(m, n, bsize);
    } else if n < m {
      Steps(n, m, bsize);
    }
  }

  lemma CalcMonotonic(bsize: nat, a: nat, b: nat)
    requires bsize > 0 && a <= b
    ensures CalcBlocks(bsize, a) <= CalcBlocks(bsize, b)
  {
    CalcFits(bsize, a);
    CalcFits(bsize, b);
    var m, n := CalcBlocks(bsize, a), CalcBlocks(bsize, b);
    Before(m, bsize);
    if n < m {
      Steps(n, m, bsize);
    }
  }

  /** A byte below the size lies in one of the blocks the size needs. */
  lemma ByteInBlock(bsize: nat, k: nat, n: nat)
    requires bsize > 0
    ensures k < n * bsize <==> Quo(k, bsize) < n
  {
    NthFits(k, n, bsize);
  }

  /** Writing within one block: how many blocks the file needs then. */
  lemma CalcStep(bsize: nat, at: nat, len: nat)
    requires bsize > 0 && 0 < len <= bsize - Rem(at, bsize)
    ensures CalcBlocks(bsize, at + len) == Quo(at, bsize) + 1
  {
    QuoRem(at, bsize);
    NextRow(Quo(at, bsize), bsize);
    CalcUnique(bsize, at + len, Quo(at, bsize) + 1);
  }

  /** The next chunk begins where a block begins, unless it was the last. */
  lemma NextChunk(bsize: nat, at: nat, len: nat)
    requires bsize > 0 && len == bsize - Rem(at, bsize)
    ensures Quo(at + len, bsize) == Quo(at, bsize) + 1 && Rem(at + len, bsize) == 0
  {
    QuoRem(at, bsize);
    NextRow(Quo(at, bsize), bsize);
    NthOf(Quo(at, bsize) + 1, 0, bsize);
  }

  /** After `done` bytes of `src` went to offset `off` of a file that had `size` bytes. */
  ghost predicate Written(s: Fs, t: Fs, units: nat, ino: nat, off: nat, src: seq<Byte>, done: nat, size: nat)
    requires units > 0
  {
    && done <= |src|
    && (forall k: nat :: off <= k < off + done ==> ByteAt(t, units, ino, k) == src[k - off])
    && (forall k: nat :: k < size && (k < off || off + done <= k) ==>
      ByteAt(t, units, ino, k) == ByteAt(s, units, ino, k))
    && forall ino', k: nat :: ino' != ino ==> ByteAt(t, units, ino', k) == ByteAt(s, units, ino', k)
  }

  /** One block was rewritten: a chunk at `skip`, the rest as it was if the block was there before. */
  ghost predicate Patched(t: Fs, u: Fs, units: nat, ino: nat, nth: nat, skip: nat, chunk: seq<Byte>, had: bool)
    requires units > 0
  {
    && skip + |chunk| <= 4 * units && SameBut(t, u, Data(ino, Quo(nth, units), Rem(nth, units)))
    && var new_ := AsBytes(BlockOf(u, BlockNo(u, units, ino, nth)), 4 * units);
    && var old_ := AsBytes(BlockOf(t, BlockNo(t, units, ino, nth)), 4 * units);
    && (forall m :: 0 <= m < |chunk| ==> new_[skip + m] == chunk[m])
    && (had ==> forall m :: 0 <= m < 4 * units && (m < skip || skip + |chunk| <= m) ==> new_[m] == old_[m])
  }

  /** Where byte `k` is after the patch. */
  lemma PatchedByte(t: Fs, u: Fs, units: nat, ino: nat, nth: nat, skip: nat, chunk: seq<Byte>, had: bool, k: nat)
    requires units > 0 && Patched(t, u, units, ino, nth, skip, chunk, had)
    ensures Quo(k, 4 * units) != nth ==> ByteAt(u, units, ino, k) == ByteAt(t, units, ino, k)
    ensures Quo(k, 4 * units) == nth && skip <= Rem(k, 4 * units) < skip + |chunk| ==>
      ByteAt(u, units, ino, k) == chunk[Rem(k, 4 * units) - skip]
    ensures Quo(k, 4 * units) == nth && had && (Rem(k, 4 * units) < skip || skip + |chunk| <= Rem(k, 4 * units)) ==>
      ByteAt(u, units, ino, k) == ByteAt(t, units, ino, k)
  {
    var n := Quo(k, 4 * units);
    if n != nth {
      if Quo(n, units) == Quo(nth, units) && Rem(n, units) == Rem(nth, units) {
        SameNth(n, nth, units);
      }
      hide SameBut;
      ByteSame(t, u, units, Data(ino, Quo(nth, units), Rem(nth, units)), ino, k);
    } else if skip <= Rem(k, 4 * units) < skip + |chunk| {
      hide AsBytes, BlockNo, BlockOf, SameBut;
      assert ByteAt(u, units, ino, k) ==
             AsBytes(BlockOf(u, BlockNo(u, units, ino, nth)), 4 * units)[skip + (Rem(k, 4 * units) - skip)];
    }
  }

  lemma PatchedOthers(t: Fs, u: Fs, units: nat, ino: nat, nth: nat, skip: nat, chunk: seq<Byte>, had: bool)
    requires units > 0 && Patched(t, u, units, ino, nth, skip, chunk, had)
    ensures forall ino', k: nat :: ino' != ino ==> ByteAt(u, units, ino', k) == ByteAt(t, units, ino', k)
  {
    forall ino': nat, k: nat | ino' != ino ensures ByteAt(u, units, ino', k) == ByteAt(t, units, ino', k) {
      ByteSame(t, u, units, Data(ino, Quo(nth, units), Rem(nth, units)), ino', k);
    }
  }

  /** Offset `at + m` lies `skip + m` bytes into the block of `at`, as far as that block reaches. */
  lemma SameBlock(bsize: nat, at: nat, k: nat)
    requires bsize > 0
    ensures Quo(k, bsize) == Quo(at, bsize) <==> at - Rem(at, bsize) <= k < at - Rem(at, bsize) + bsize
    ensures Quo(k, bsize) == Quo(at, bsize) ==> Rem(k, bsize) == k - at + Rem(at, bsize)
  {
    QuoRem(at, bsize);
    QuoRem(k, bsize);
    var q, p := Quo(at, bsize), Quo(k, bsize);
    if p < q {
      Steps(p, q, bsize);
    } else if q < p {
      Steps(q, p, bsize);
    }
  }

  /** The step of a write: `len` bytes from `done` on went to the block they belong to. */
  ghost predicate Stepped(t: Fs, u: Fs, units: nat, ino: nat, off: nat, src: seq<Byte>, done: nat, len: nat, had: bool)
    requires units > 0
  {
    && done + len <= |src| && len <= 4 * units - Rem(off + done, 4 * units)
    && Patched(t, u, units, ino, Quo(off + done, 4 * units), Rem(off + done, 4 * units), src[done..done + len], had)
  }

  lemma StepInside(t: Fs, u: Fs, units: nat, ino: nat, off: nat, src: seq<Byte>, done: nat, len: nat, had: bool, k: nat)
    requires units > 0 && Stepped(t, u, units, ino, off, src, done, len, had) && off + done <= k < off + done + len
    ensures ByteAt(u, units, ino, k) == src[k - off]
  {
    var bsize, at := 4 * units, off + done;
    SameBlock(bsize, at, k);
    PatchedByte(t, u, units, ino, Quo(at, bsize), Rem(at, bsize), src[done..done + len], had, k);
    hide Patched, ByteAt;
  }

  lemma StepOutside(t: Fs, u: Fs, units: nat, ino: nat, off: nat, src: seq<Byte>, done: nat, len: nat, had: bool,
                    k: nat)
    requires units > 0 && Stepped(t, u, units, ino, off, src, done, len, had)
      && (k < off + done || off + done + len <= k)
    requires !had ==> Rem(off + done, 4 * units) == 0 && k < off + done
    ensures ByteAt(u, units, ino, k) == ByteAt(t, units, ino, k)
  {
    var bsize, at := 4 * units, off + done;
    SameBlock(bsize, at, k);
    PatchedByte(t, u, units, ino, Quo(at, bsize), Rem(at, bsize), src[done..done + len], had, k);
    hide Patched, ByteAt;
  }

  lemma WrittenStep(s: Fs, t: Fs, u: Fs, units: nat, ino: nat, off: nat, src: seq<Byte>, done: nat, size: nat, len: nat,
                    had: bool)
    requires units > 0 && Written(s, t, units, ino, off, src, done, size)
    requires Stepped(t, u, units, ino, off, src, done, len, had)
    requires !had ==> Rem(off + done, 4 * units) == 0 && size <= off + done
    ensures Written(s, u, units, ino, off, src, done + len, size)
  {
    PatchedOthers(t, u, units, ino, Quo(off + done, 4 * units), Rem(off + done, 4 * units), src[done..done + len], had);
    forall k: nat | off <= k < off + done + len ensures ByteAt(u, units, ino, k) == src[k - off] {
      if k < off + done {
        StepOutside(t, u, units, ino, off, src, done, len, had, k);
      } else {
        StepInside(t, u, units, ino, off, src, done, len, had, k);
      }
    }
    forall k: nat | k < size && (k < off || off + done + len <= k)
      ensures ByteAt(u, units, ino, k) == ByteAt(s, units, ino, k)
    {
      StepOutside(t, u, units, ino, off, src, done, len, had, k);
    }
    hide Stepped, ByteAt;
  }

  /** Bytes written over a file from an offset on, and beyond its end. */
  function Splice(old_: seq<Byte>, off: nat, src: seq<Byte>): seq<Byte>
    requires off <= |old_|
  {
    old_[..off] + src + if off + |src| < |old_| then old_[off + |src|..] else []
  }

  lemma WrittenContent(s: Fs, t: Fs, units: nat, ino: nat, off: nat, src: seq<Byte>, done: nat)
    requires units > 0 && ino in s.inodes && ino in t.inodes && off <= s.inodes[ino].size
    requires Written(s, t, units, ino, off, src, done, s.inodes[ino].size)
    requires t.inodes[ino].size == if off + done > s.inodes[ino].size then off + done else s.inodes[ino].size
    ensures Content(t, units, ino) == Splice(Content(s, units, ino), off, src[..done])
  {
    hide ByteAt;
    var a, b := Content(t, units, ino), Splice(Content(s, units, ino), off, src[..done]);
    assert |a| == |b|;
    forall k | 0 <= k < |a| ensures a[k] == b[k] {
    }
  }

  lemma OtherContent(s: Fs, t: Fs, units: nat, ino: nat)
    requires units > 0 && ino in s.inodes && ino in t.inodes && s.inodes[ino].size == t.inodes[ino].size
    requires forall k: nat :: ByteAt(t, units, ino, k) == ByteAt(s, units, ino, k)
    ensures Content(t, units, ino) == Content(s, units, ino)
  {
    hide ByteAt;
  }
}
