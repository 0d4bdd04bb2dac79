/** The TFS file system: block maps, reading, writing, shortening, inodes. */
module Tfs {
  import opened Octets
  import opened TfsAllocator
  import opened TfsSlots
  import opened TfsFiles
  import opened TfsBytes
  import opened TfsImage
  import opened TfsSpace
  import opened Bitmap

  /** Every file but those named has just the blocks its size needs. */
  ghost predicate Filled(s: Fs, g: Geometry, except: set<nat>)
    requires g.units > 0
  {
    forall ino :: ino in s.inodes && ino !in except ==>
      Dense(s, g.first, g.units, ino, CalcBlocks(4 * g.units, s.inodes[ino].size))
  }

  class FileSystem {
    const blocks: Blocks
    const g: Geometry
    var inodes: map<nat, Inode>
    var disk: map<nat, Block>
    ghost var owner: map<nat, Slot>

    ghost function View(): Fs
      reads this
    {
      Fs(inodes, disk)
    }

    ghost predicate Ready()
      reads this, blocks
    {
      && blocks.Valid() && g.units == blocks.units && g.low == blocks.dblkno && g.high == blocks.fsSize
      && Sane(View(), owner, blocks.free, g)
    }

    ghost predicate Valid()
      reads this, blocks
    {
      Ready() && Filled(View(), g, {})
    }

    /** Blocks in use by files, and blocks that are free. */
    ghost function Total(): nat
      reads this, blocks
    {
      |owner| + blocks.freeBlocks
    }

    /** Mounts an image in which everything is in order. */
    constructor (blocks: Blocks, g: Geometry, inodes: map<nat, Inode>, disk: map<nat, Block>,
                 ghost owner: map<nat, Slot>)
      requires blocks.Valid() && g.units == blocks.units && g.low == blocks.dblkno && g.high == blocks.fsSize
      requires Sane(Fs(inodes, disk), owner, blocks.free, g) && Filled(Fs(inodes, disk), g, {})
      ensures Valid() && this.blocks == blocks && this.g == g && View() == Fs(inodes, disk)
    {
      hide Sane, Filled, Counted;
      this.blocks, this.g, this.inodes, this.disk, this.owner := blocks, g, inodes, disk, owner;
    }

    method GetBlockNo(ino: nat, nth: nat) returns (b: nat)
      requires Ready() && ino in inodes
      ensures b == if nth < g.first * g.units then BlockNo(View(), g.units, ino, nth) else 0
    {
      hide Owned;
      NthFits(nth, g.first, g.units);
      if nth >= g.first * g.units {
        return 0;
      }
      b := inodes[ino].ib[Quo(nth, g.units)];
      if b == 0 {
        return 0;
      }
      assert b == Entry(inodes, ino, Quo(nth, g.units));
      b := disk[b].refs[Rem(nth, g.units)];
    }

    /** A fresh second-level block for a table entry that has none. */
    method AddEntry(ino: nat, i: nat) returns (c: nat)
      requires Ready() && ino in inodes && i < g.first && Entry(inodes, ino, i) == 0
      modifies this, blocks
      ensures Ready() && Total() == old(Total()) && SameSizes(old(inodes), inodes)
      ensures c == 0 <==> old(blocks.freeBlocks) == 0
      ensures blocks.freeBlocks == if c == 0 then 0 else old(blocks.freeBlocks) - 1
      ensures c == 0 ==> View() == old(View()) && owner == old(owner) && blocks.free == old(blocks.free)
      ensures c != 0 ==> EntryNamed(old(View()), View(), ino, i, c)
      ensures forall b :: Spare(old(owner), old(blocks.free), g, b) ==> Spare(owner, blocks.free, g, b)
    {
      hide Owned, Typed, Used, Backed, At, SameBut, Counted, Lowest, Entry;
      ghost var s := View();
      c := blocks.Allocate();
      if c != 0 {
        AllocatedFree(old(blocks.free), c);
        FreeUnowned(s, owner, old(blocks.free), g, c);
        TableSize(s, g, ino);
        EntryAdded(s, owner, blocks.free, g, ino, i, c);
        inodes := inodes[ino := inodes[ino].(ib := inodes[ino].ib[i := c])];
        disk := disk[c := Refs(seq(g.units, _ => 0))];
        owner := owner[c := Second(ino, i)];
        assert View() == WithEntry(s, g, ino, i, c);
        hide WithEntry;
      }
    }

    /** Fills an empty entry of a second-level block. */
    method AddRef(ino: nat, i: nat, j: nat, b: nat)
      requires Ready() && ino in inodes && Spare(owner, blocks.free, g, b) && j < g.units
      requires Entry(inodes, ino, i) != 0 && At(View(), Data(ino, i, j)) == 0
      modifies this`disk, this`owner
      ensures Ready() && Total() == old(Total()) + 1
      ensures RefNamed(old(View()), View(), Data(ino, i, j), b)
    {
      hide Owned, Typed, Used, Backed, At, SameBut, Counted;
      ghost var s := View();
      SecondLevel(s, g, ino, i);
      TableSize(s, g, ino);
      RefAdded(s, owner, blocks.free, g, ino, i, j, b);
      hide Entry;
      var c := inodes[ino].ib[i];
      disk := disk[c := Refs(disk[c].refs[j := b])];
      owner := owner[b := Data(ino, i, j)];
    }

    /** Makes the `nth` block of a file the given one, which nothing names yet.  It fails exactly without such a block,
        past the largest file, or when no block is left for a second level that it needs. */
    method SetBlockNo(ino: nat, nth: nat, b: nat) returns (r: nat)
      requires Ready() && ino in inodes && (b != 0 ==> Spare(owner, blocks.free, g, b))
      requires nth < g.first * g.units ==> BlockNo(View(), g.units, ino, nth) == 0
      modifies this, blocks
      ensures Ready() && SameSizes(old(inodes), inodes)
      ensures r == 0 ==> View() == old(View()) && owner == old(owner) && Total() == old(Total())
      ensures r == 0 <==>
        || b == 0 || nth >= g.first * g.units
        || (Entry(old(inodes), ino, Quo(nth, g.units)) == 0 && old(blocks.freeBlocks) == 0)
      ensures blocks.freeBlocks == old(blocks.freeBlocks)
        - if r != 0 && Entry(old(inodes), ino, Quo(nth, g.units)) == 0 then 1 else 0
      ensures r != 0 ==> r == b && nth < g.first * g.units && Total() == old(Total()) + 1
      ensures r != 0 ==> NamedAt(old(View()), View(), g, ino, nth, b)
    {
      hide Sane, At, SameBut, Spare, Counted, EntryNamed, RefNamed, Entry;
      NthFits(nth, g.first, g.units);
      if nth >= g.first * g.units || b == 0 {
        return 0;
      }
      ghost var s := View();
      var i, j := Quo(nth, g.units), Rem(nth, g.units);
      EntryIs(s, owner, blocks.free, g, ino, i);
      ghost var x := Data(ino, i, j);
      if inodes[ino].ib[i] == 0 {
        var c := AddEntry(ino, i);
        if c == 0 {
          return 0;
        }
        EntryNamedFacts(s, View(), ino, i, c, x);
      }
      ghost var m := View();
      AddRef(ino, i, j, b);
      NamedBoth(s, m, View(), g, ino, nth, b);
      r := b;
    }

    /** Copies a chunk into the `nth` block of a file. */
    method PutBytes(ino: nat, nth: nat, b: nat, skip: nat, chunk: seq<Byte>)
      requires Ready() && b != 0 && b == BlockNo(View(), g.units, ino, nth) && skip + |chunk| <= 4 * g.units
      modifies this`disk
      ensures Ready() && Patched(old(View()), View(), g.units, ino, nth, skip, chunk, true)
      ensures forall y :: At(View(), y) == At(old(View()), y)
    {
      hide Owned, Typed, Used, At, Counted, Quo, Rem, SameBut;
      ghost var x, s := Data(ino, Quo(nth, g.units), Rem(nth, g.units)), View();
      assert b in disk by {
        NamedIn(s, owner, blocks.free, g, x);
      }
      var bytes := AsBytes(disk[b], 4 * g.units);
      var after := bytes[..skip] + chunk + bytes[skip + |chunk|..];
      BytesPut(s, owner, blocks.free, g, x, after);
      hide Backed;
      disk := disk[b := Bytes(after)];
      assert View() == SetBlock(s, b, Bytes(after));
      assert BlockOf(View(), BlockNo(View(), g.units, ino, nth)) == Bytes(after);
      assert AsBytes(Bytes(after), 4 * g.units) == after;
    }

    /** Writes a chunk into the `nth` block of a file of `n` blocks, adding the block if it is the next one. */
    method WriteBlock(ino: nat, nth: nat, skip: nat, chunk: seq<Byte>, ghost n: nat) returns (ok: bool)
      requires Ready() && ino in inodes && Filled(View(), g, {ino}) && Dense(View(), g.first, g.units, ino, n)
        && nth <= n
      requires skip + |chunk| <= 4 * g.units
      modifies this, blocks
      ensures Ready() && SameSizes(old(inodes), inodes) && Filled(View(), g, {ino})
      ensures ok ==> Total() == old(Total()) && Patched(old(View()), View(), g.units, ino, nth, skip, chunk, nth < n)
      ensures ok ==> Dense(View(), g.first, g.units, ino, if nth < n then n else n + 1)
      ensures !ok ==> View() == old(View()) && Total() == old(Total()) - Wasted(old(blocks.freeBlocks))
      ensures !ok ==> blocks.freeBlocks == old(blocks.freeBlocks) - Wasted(old(blocks.freeBlocks))
      ensures nth < n ==> ok && blocks.freeBlocks == old(blocks.freeBlocks)
      ensures nth == n ==> (ok <==> n < g.first * g.units && NextNeeds(g.units, n) <= old(blocks.freeBlocks))
      ensures nth == n && ok ==> blocks.freeBlocks == old(blocks.freeBlocks) - NextNeeds(g.units, n)
    {
      hide Sane, Filled, Dense, SameSizes, Counted, NamedAt, At, Patched, SameBut, Spare, Lowest, BlockNo;
      ghost var s := View();
      SizesSame(inodes);
      DenseAt(s, g, ino, n, nth);
      DenseRow(s, g, ino, n);
      var b := GetBlockNo(ino, nth);
      if b == 0 {
        var got := blocks.Allocate();
        if got != 0 {
          SpareAfter(s, owner, old(blocks.free), g, got);
        }
        b := SetBlockNo(ino, nth, got);
        if b == 0 {
          return false;
        }
        NamedBlock(s, View(), g, ino, nth, b);
        NamedDense(s, View(), g, ino, nth, b);
        NamedFilled(s, View(), g, ino, nth, b);
      }
      ghost var m := View();
      PutBytes(ino, nth, b, skip, chunk);
      PutDense(m, View(), g, ino, if nth < n then n else n + 1);
      if nth >= n {
        PatchedAfter(s, m, View(), g, ino, nth, b, skip, chunk);
      }
      ok := true;
    }

    /** Every file as the bytes it holds. */
    ghost function Files(): map<nat, seq<Byte>>
      reads this
    {
      FilesOf(View(), g)
    }

    /** Writes block by block, until one cannot be had; the size of the file is still as it was. */
    method WriteBlocks(ino: nat, off: nat, src: seq<Byte>) returns (ok: bool, done: nat, ghost n: nat)
      requires Valid() && ino in inodes && off <= inodes[ino].size
      modifies this, blocks
      ensures Ready() && SameSizes(old(inodes), inodes) && done <= |src| && (ok <==> done == |src|)
      ensures Filled(View(), g, {ino}) && Dense(View(), g.first, g.units, ino, n)
      ensures Written(old(View()), View(), g.units, ino, off, src, done, old(inodes)[ino].size)
      ensures var size := old(inodes)[ino].size;
        n == CalcBlocks(4 * g.units, if off + done > size then off + done else size)
      ensures !ok ==> old(inodes)[ino].size <= off + done && Rem(off + done, 4 * g.units) == 0
      ensures ok <==> Affords(g, old(inodes)[ino].size, off + |src|, old(blocks.freeBlocks))
      ensures !ok ==> Affords(g, old(inodes)[ino].size, off + done, old(blocks.freeBlocks))
      ensures !ok ==> !Affords(g, old(inodes)[ino].size, off + done + 1, old(blocks.freeBlocks))
      ensures var left := Left(g, old(inodes)[ino].size, off + done, old(blocks.freeBlocks));
        var wasted := if ok then 0 else Wasted(left);
        left >= 0 && blocks.freeBlocks == left - wasted && Total() == old(Total()) - wasted
    {
      hide Sane, Filled, Dense, SameSizes, Counted, Patched, Written, CalcBlocks, Affords, Left, Needs, NextNeeds;
      ghost var s := View();
      ghost var size, free0 := inodes[ino].size, blocks.freeBlocks;
      var bsize := 4 * g.units;
      var index, skip := Quo(off, bsize), Rem(off, bsize);
      done := 0;
      n := CalcBlocks(bsize, size);
      ok := true;
      SizesSame(inodes);
      WriteBegins(s, g, ino, off, src);
      while done < |src|
        invariant 0 <= done <= |src| && ok && Ready() && ino in inodes && SameSizes(s.inodes, inodes)
        invariant Filled(View(), g, {ino}) && Dense(View(), g.first, g.units, ino, n)
        invariant Written(s, View(), g.units, ino, off, src, done, size)
        invariant n == CalcBlocks(bsize, if off + done > size then off + done else size)
        invariant done < |src| ==> index == Quo(off + done, bsize) && skip == Rem(off + done, bsize)
        invariant Total() == old(Total()) && blocks.freeBlocks + Needs(g.units, n) == free0 + Cost(g.units, size)
        modifies this, blocks
      {
        hide Quo, Rem;
        var rest := |src| - done;
        var len := if bsize - skip > rest then rest else bsize - skip;
        ghost var m := View();
        WriteReaches(bsize, off, done, size, len);
        NeedsStep(g.units, n);
        DenseFits(m, g, ino, n);
        ghost var free := blocks.freeBlocks;
        ok := WriteBlock(ino, index, skip, src[done..done + len], n);
        SizesTrans(s.inodes, m.inodes, inodes);
        if !ok {
          AffordsNoMore(g, size, off + done, off + |src|, n, free0, free);
          return;
        }
        WriteStep(s, m, View(), g, ino, off, src, done, size, len, n);
        n := CalcBlocks(bsize, if off + done + len > size then off + done + len else size);
        skip := 0;
        index := index + 1;
        done := done + len;
      }
      DenseFits(View(), g, ino, n);
      AffordsAll(g, size, off + done, n, free0, blocks.freeBlocks);
    }

    /** Writes at an offset within the file or at its end.  It goes through exactly if the file can grow so far, and
        otherwise writes as much as it can; the block it then takes in vain is lost. */
    method Write(ino: nat, off: nat, src: seq<Byte>) returns (ok: bool, wrote: nat)
      requires Valid() && ino in inodes && off <= inodes[ino].size
      modifies this, blocks
      ensures Valid() && wrote <= |src| && (ok <==> wrote == |src|)
      ensures ok <==> Affords(g, old(inodes)[ino].size, off + |src|, old(blocks.freeBlocks))
      ensures !ok ==> Affords(g, old(inodes)[ino].size, off + wrote, old(blocks.freeBlocks))
      ensures !ok ==> !Affords(g, old(inodes)[ino].size, off + wrote + 1, old(blocks.freeBlocks))
      ensures var left := Left(g, old(inodes)[ino].size, off + wrote, old(blocks.freeBlocks));
        left >= 0 && blocks.freeBlocks == left - if ok then 0 else Wasted(left)
      ensures !ok ==>
        Total() == old(Total()) - Wasted(Left(g, old(inodes)[ino].size, off + wrote, old(blocks.freeBlocks)))
      ensures off + |src| <= old(inodes)[ino].size ==> ok
      ensures !ok ==> old(inodes)[ino].size <= off + wrote && Rem(off + wrote, 4 * g.units) == 0
      ensures Files() == old(Files())[ino := Splice(old(Files())[ino], off, src[..wrote])]
      ensures ok ==> Total() == old(Total())
      ensures old(Total()) - 1 <= Total() <= old(Total())
    {
      hide Sane, Filled, Dense, SameSizes, Counted, Written, CalcBlocks, Affords, Left, FilesOf, Splice, Rem;
      ghost var s, n := View(), 0;
      ok, wrote, n := WriteBlocks(ino, off, src);
      ghost var t := View();
      KeepSize(s.inodes, t, ino);
      AffordsWithin(g, s.inodes[ino].size, off + |src|, old(blocks.freeBlocks));
      if wrote != 0 && off + wrote > inodes[ino].size {
        inodes := inodes[ino := inodes[ino].(size := off + wrote)];
      }
      WriteEnds(s, t, View(), owner, blocks.free, g, ino, off, src, wrote, n);
    }

    /** Where the blocks of a file of this size end. */
    function Reach(size: nat): nat
      reads this
    {
      if g.units == 0 then 0 else CalcBlocks(4 * g.units, size) * (4 * g.units)
    }

    /** Reads block by block; it stops where the blocks of the file end, which may be past the end of the file. */
    method Read(ino: nat, off: nat, nbytes: nat) returns (ok: bool, data: seq<Byte>)
      requires Valid() && ino in inodes
      ensures |data| <= nbytes && (ok <==> |data| == nbytes)
      ensures off + nbytes <= inodes[ino].size ==> ok && data == Files()[ino][off..off + nbytes]
      ensures forall k :: 0 <= k < |data| && off + k < inodes[ino].size ==> data[k] == Files()[ino][off + k]
      ensures ok <==> nbytes == 0 || off + nbytes <= Reach(inodes[ino].size)
      ensures !ok ==> |data| == if off < Reach(inodes[ino].size) then Reach(inodes[ino].size) - off else 0
    {
      hide Owned, Typed, Used, Counted, Filled, Dense, CalcBlocks;
      ghost var s := View();
      var bsize := 4 * g.units;
      var index, skip := Quo(off, bsize), Rem(off, bsize);
      ghost var end := Reach(inodes[ino].size);
      data := [];
      while |data| < nbytes
        invariant |data| <= nbytes
        invariant forall k :: 0 <= k < |data| ==> data[k] == ByteAt(s, g.units, ino, off + k)
        invariant |data| < nbytes ==> index == Quo(off + |data|, bsize) && skip == Rem(off + |data|, bsize)
        invariant |data| > 0 ==> off + |data| <= end
      {
        hide At, BlockNo, Quo, Rem, AsBytes, ByteAt;
        var b := GetBlockNo(ino, index);
        BlockThere(s, g, ino, off + |data|);
        if b == 0 {
          if off + nbytes <= inodes[ino].size {
            ReadReaches(s, g, ino, off + |data|);
            assert false;
          }
          return false, data;
        }
        assert b in disk by {
          BlockNamed(s, owner, blocks.free, g, ino, index);
        }
        var rest := nbytes - |data|;
        var len := if bsize - skip > rest then rest else bsize - skip;
        ghost var at := off + |data|;
        var chunk := AsBytes(disk[b], bsize)[skip..skip + len];
        forall m | 0 <= m < len ensures chunk[m] == ByteAt(s, g.units, ino, at + m) {
          ReadByte(s, g, ino, at, m);
        }
        if len != rest {
          NextChunk(bsize, at, len);
        }
        ChunkWithin(bsize, at, len, CalcBlocks(bsize, inodes[ino].size));
        data := data + chunk;
        skip := 0;
        index := index + 1;
      }
      ok := true;
    }

    /** Frees the block in one entry of a second-level block. */
    method DropRef(ino: nat, i: nat, j: nat)
      requires Ready() && ino in inodes && Entry(inodes, ino, i) != 0 && At(View(), Data(ino, i, j)) != 0
      modifies this`disk, this`owner, blocks
      ensures Ready() && Total() == old(Total()) && Partial(old(View()), View(), ino, i, j, j + 1)
      ensures blocks.freeBlocks == old(blocks.freeBlocks) + 1
    {
      hide Owned, Typed, Used, Backed, At, SameBut, Counted;
      ghost var s := View();
      EntryBelow(s, ino, i);
      SecondLevel(s, g, ino, i);
      RefDropped(s, owner, blocks.free, g, ino, i, j);
      RefBelow(s, g, ino, i, j);
      var c := inodes[ino].ib[i];
      var b := disk[c].refs[j];
      var _ := blocks.Deallocate(b);
      disk := disk[c := Refs(disk[c].refs[j := 0])];
      LessOne(owner, b);
      owner := owner - {b};
      assert View() == SetRef(s, c, j, 0);
      PartialOne(s, View(), ino, i, j);
    }

    /** Frees the blocks in the entries of a second-level block from one on, up to the first empty entry. */
    method DropRefs(ino: nat, i: nat, from: nat, ghost k: nat)
      requires Ready() && ino in inodes && i < g.first && Entry(inodes, ino, i) != 0 && Unbroken(View(), ino, i)
      requires from <= k <= g.units && RowHas(View(), ino, i, k)
      modifies this`disk, this`owner, blocks
      ensures Ready() && Total() == old(Total()) && Partial(old(View()), View(), ino, i, from, g.units)
      ensures blocks.freeBlocks == old(blocks.freeBlocks) + k - from
    {
      hide Sane, At, Counted, Partial, Unbroken, RowHas;
      ghost var s := View();
      PartialNone(s, ino, i, from);
      EntryIs(s, owner, blocks.free, g, ino, i);
      var j := from;
      while true
        invariant from <= j <= k && Ready() && Total() == old(Total()) && Partial(s, View(), ino, i, from, j)
        invariant blocks.freeBlocks == old(blocks.freeBlocks) + j - from
        decreases g.units - j
        modifies this`disk, this`owner, blocks
      {
        ghost var m := View();
        SecondIs(m, owner, blocks.free, g, ino, i, j);
        RowNext(s, m, ino, i, from, j, k);
        if j >= g.units || disk[inodes[ino].ib[i]].refs[j] == 0 {
          break;
        }
        DropRef(ino, i, j);
        PartialStep(s, m, View(), ino, i, from, j);
        j := j + 1;
      }
      PartialRun(s, View(), owner, blocks.free, g, ino, i, from, j);
    }

    /** Frees a second-level block with everything in it. */
    method DropEntry(ino: nat, i: nat, ghost k: nat)
      requires Ready() && ino in inodes && i < g.first && Entry(inodes, ino, i) != 0 && Unbroken(View(), ino, i)
      requires k <= g.units && RowHas(View(), ino, i, k)
      modifies this, blocks
      ensures Ready() && Total() == old(Total()) && SameSizes(old(inodes), inodes)
      ensures EntryGone(old(View()), View(), ino, i) && blocks.freeBlocks == old(blocks.freeBlocks) + k + 1
    {
      hide Sane, At, Counted, Partial, Unbroken, SameSizes, RowHas;
      ghost var s := View();
      DropRefs(ino, i, 0, k);
      ghost var m := View();
      EntryIs(m, owner, blocks.free, g, ino, i);
      EntryEmpty(s, m, owner, blocks.free, g, ino, i);
      EntryDropped(m, owner, blocks.free, g, ino, i);
      var c := inodes[ino].ib[i];
      var _ := blocks.Deallocate(c);
      inodes := inodes[ino := inodes[ino].(ib := inodes[ino].ib[i := 0])];
      LessOne(owner, c);
      owner := owner - {c};
      assert View() == SetEntry(m, ino, i, 0);
      EntrySizes(m, ino, i);
      EntryGoes(s, m, View(), g, ino, i);
    }

    /** Frees the blocks of a file of `n` blocks from number `count` on. */
    method ShortenBlocks(ino: nat, count: nat, ghost n: nat)
      requires Ready() && ino in inodes && Dense(View(), g.first, g.units, ino, n) && count < n
      modifies this, blocks
      ensures Ready() && Total() == old(Total()) && SameSizes(old(inodes), inodes)
      ensures Cut(old(View()), View(), ino, Quo(count, g.units), Rem(count, g.units), g.first)
      ensures blocks.freeBlocks == old(blocks.freeBlocks) + Needs(g.units, n) - Needs(g.units, count)
    {
      hide Sane, At, Counted, Partial, Unbroken, SameSizes, Dense, Cut, EntryGone, Quo, Rem, RowHas, Needs, RowLen,
        Below;
      ghost var s := View();
      ghost var owner0, free0 := owner, blocks.free;
      SizesSame(inodes);
      var q, r := Quo(count, g.units), Rem(count, g.units);
      var index := q;
      CutNone(s, ino, q, r);
      DenseReaches(s, g, ino, n, count);
      if r == 0 {
        RowsBegin(g.units, n, count);
      } else {
        DenseRun(s, owner, blocks.free, g, ino, n, q);
        DenseRowHas(s, owner, blocks.free, g, ino, n, q);
        PartNeeds(g.units, n, count);
        DropRefs(ino, q, r, RowLen(g.units, n, q));
        CutFirst(s, View(), owner0, free0, g, ino, q, r);
        index := index + 1;
      }
      while true
        invariant q <= index <= g.first && (index == q ==> r == 0) && Ready() && Total() == old(Total())
        invariant ino in inodes && SameSizes(s.inodes, inodes) && Cut(s, View(), ino, q, r, index)
        invariant blocks.freeBlocks
          == old(blocks.freeBlocks) + Needs(g.units, Below(g.units, n, index)) - Needs(g.units, count)
        decreases g.first - index
        modifies this, blocks
      {
        ghost var m := View();
        DenseEnds(s, g, ino, n, index);
        if index < g.first {
          EntryIs(m, owner, blocks.free, g, ino, index);
          CutEntry(s, m, ino, q, r, index);
        }
        if index >= g.first || inodes[ino].ib[index] == 0 {
          break;
        }
        DenseRun(s, owner0, free0, g, ino, n, index);
        CutRun(s, m, ino, q, r, index);
        DenseRowHas(s, owner0, free0, g, ino, n, index);
        CutRow(s, m, ino, q, r, index, RowLen(g.units, n, index));
        RowNeeds(g.units, n, index);
        DropEntry(ino, index, RowLen(g.units, n, index));
        SizesTrans(s.inodes, m.inodes, inodes);
        CutStep(s, m, View(), ino, q, r, index);
        index := index + 1;
      }
      CutAll(s, View(), owner0, free0, g, ino, n, q, r, index);
    }

    /** Makes a file shorter. */
    method Shorten(ino: nat, size: nat)
      requires Valid() && ino in inodes && size <= inodes[ino].size
      modifies this, blocks
      ensures Valid() && Total() == old(Total())
      ensures Files() == old(Files())[ino := old(Files())[ino][..size]]
      ensures size == 0 ==> ino in inodes && forall i :: Entry(inodes, ino, i) == 0
      ensures blocks.freeBlocks
        == old(blocks.freeBlocks) + Cost(g.units, old(inodes)[ino].size) - Cost(g.units, size)
    {
      hide Sane, At, Counted, SameSizes, Dense, Cut, Filled, CalcBlocks, FilesOf, Quo, Rem, Entry, Needs;
      ghost var s := View();
      ghost var owner0, free0 := owner, blocks.free;
      SizesSame(inodes);
      var bsize := 4 * g.units;
      ghost var n := CalcBlocks(bsize, inodes[ino].size);
      WriteBegins(s, g, ino, 0, []);
      CalcMonotonic(bsize, size, inodes[ino].size);
      var count := CalcBlocks(bsize, size);
      if count < CalcBlocks(bsize, inodes[ino].size) {
        ShortenBlocks(ino, count, n);
        CutDense(s, View(), owner0, free0, g, ino, n, count);
      } else {
        NoCut(s, g, ino, count);
      }
      ghost var t := View();
      KeepSize(s.inodes, t, ino);
      ShortEnds(s, t, SetSize(t, ino, size), owner, blocks.free, g, ino, size, count);
      inodes := inodes[ino := inodes[ino].(size := size)];
      if size == 0 {
        EmptyEntries(View(), owner, blocks.free, g, ino);
      }
    }

    /** A new, empty file; its number is the block its inode takes, or 0 when no block is left. */
    method AllocateInode() returns (ino: nat)
      requires Valid()
      modifies this, blocks
      ensures Valid() && Total() == old(Total()) && (ino == 0 <==> old(blocks.freeBlocks) == 0)
      ensures blocks.freeBlocks == if ino == 0 then 0 else old(blocks.freeBlocks) - 1
      ensures ino == 0 ==> Files() == old(Files())
      ensures ino != 0 ==> ino !in old(Files()) && Files() == old(Files())[ino := []]
    {
      hide Sane, At, Counted, Filled, FilesOf, Lowest, Spare, SameBut;
      ghost var s := View();
      ino := blocks.Allocate();
      if ino == 0 {
        return;
      }
      SpareAfter(s, owner, old(blocks.free), g, ino);
      NodeAdded(s, owner, blocks.free, g, ino);
      NewFile(s, owner, blocks.free, g, ino);
      inodes := inodes[ino := Inode(0, seq(g.first, _ => 0))];
      owner := owner[ino := Node(ino)];
    }

    /** A file goes, and every block it had is free again. */
    method DeallocateInode(ino: nat)
      requires Valid() && ino in inodes
      modifies this, blocks
      ensures Valid() && Total() == old(Total()) && Files() == old(Files()) - {ino}
      ensures blocks.freeBlocks == old(blocks.freeBlocks) + Cost(g.units, old(inodes)[ino].size) + 1
    {
      hide Sane, At, Counted, Filled, FilesOf, SameBut, Entry, Cost;
      NoCost(g.units);
      Shorten(ino, 0);
      ghost var s := View();
      NodeDropped(s, owner, blocks.free, g, ino);
      OldFile(s, g, ino);
      LessOne(owner, ino);
      inodes := inodes - {ino};
      owner := owner - {ino};
      var _ := blocks.Deallocate(ino);
    }

    ghost function Stored(): Store
      reads this, blocks
    {
      Store(Files(), blocks.freeBlocks)
    }

    /** What each operation does to the files, seen as byte strings, and to the count of free blocks. */
    method Do(op: Operation) returns (done: nat)
      requires Valid() && Applies(Files(), op)
      modifies this, blocks
      ensures Valid() && g.units > 0 && Changes(g, old(Stored()), Stored(), op, done)
      ensures old(Total()) - CutShort(op, done) <= Total() <= old(Total())
    {
      hide Sane, Filled, FilesOf, Counted, Splice, Affords, Left, Cost;
      SizesOf(View(), g);
      match op {
        case Writes(ino, off, src) =>
          var ok;
          ok, done := Write(ino, off, src);
        case Shortens(ino, size) =>
          Shorten(ino, size);
          done := 0;
        case Adds => done := AllocateInode();
        case Removes(ino) =>
          DeallocateInode(ino);
          done := 0;
      }
    }

    /** Any run of operations on the image is a run of the same operations on a map of byte strings and a count of
        free blocks, in which every write goes just as far as the free blocks allow. */
    method Run(ops: seq<Operation>) returns (done: seq<nat>)
      requires Valid()
      modifies this, blocks
      ensures Valid() && g.units > 0 && |done| == |ops| && Runs(g, old(Stored()), ops, done, Stored())
      ensures Once(View(), blocks.free, g)
      ensures old(Total()) - AllCutShort(ops, done) <= Total() <= old(Total())
      ensures (forall i :: 0 <= i < |ops| && ops[i].Writes? ==> done[i] >= |ops[i].src|) ==> Total() == old(Total())
    {
      hide Sane, Filled, Counted, Changes;
      done := [];
      ghost var states := [Stored()];
      for i := 0 to |ops|
        invariant Valid() && |done| == i && |states| == i + 1 && states[0] == old(Stored()) && states[i] == Stored()
        invariant forall k :: 0 <= k < i ==> Moves(g, states[k], states[k + 1], ops[k], done[k])
        invariant old(Total()) - AllCutShort(ops[..i], done) <= Total() <= old(Total())
      {
        SizesOf(View(), g);
        ghost var before, was := states, done;
        if CanDo(ops[i]) {
          var n := Do(ops[i]);
          done := done + [n];
        } else {
          done := done + [0];
        }
        states := states + [Stored()];
        assert forall k :: 0 <= k <= i ==> states[k] == before[k];
        assert ops[..i + 1] == ops[..i] + [ops[i]] && done == was + [done[i]];
        CutShortNext(ops[..i], was, ops[i], done[i]);
      }
      assert ops[..|ops|] == ops;
      if forall i :: 0 <= i < |ops| && ops[i].Writes? ==> done[i] >= |ops[i].src| {
        NoneCutShort(ops, done);
      }
      assert Trace(g, old(Stored()), ops, done, Stored(), states);
      NamedOnce(View(), owner, blocks.free, g);
    }

    predicate CanDo(op: Operation)
      reads this
    {
      match op
      case Writes(ino, off, _) => ino in inodes && off <= inodes[ino].size
      case Shortens(ino, size) => ino in inodes && size <= inodes[ino].size
      case Adds => true
      case Removes(ino) => ino in inodes
    }
  }

  ghost predicate SameSizes(a: map<nat, Inode>, b: map<nat, Inode>) {
    && (forall ino :: ino in a <==> ino in b)
    && forall ino :: ino in a && ino in b ==> a[ino].size == b[ino].size
  }

  lemma SizesSame(a: map<nat, Inode>)
    ensures SameSizes(a, a)
  {
  }

  lemma NamedIn(s: Fs, owner: map<nat, Slot>, free: seq<bool>, g: Geometry, x: Slot)
    requires Sane(s, owner, free, g) && At(s, x) != 0
    ensures At(s, x) in s.disk
  {
    assert At(s, x) in owner;
  }

  lemma DenseAt(s: Fs, g: Geometry, ino: nat, n: nat, nth: nat)
    requires g.units > 0 && Dense(s, g.first, g.units, ino, n) && nth <= n
    ensures nth < n ==> nth < g.first * g.units && BlockNo(s, g.units, ino, nth) != 0
    ensures nth == n && nth < g.first * g.units ==> BlockNo(s, g.units, ino, nth) == 0
  {
  }

  lemma DenseFits(s: Fs, g: Geometry, ino: nat, n: nat)
    requires g.units > 0 && Dense(s, g.first, g.units, ino, n)
    ensures n <= g.first * g.units
  {
  }

  /** The row of the next block has its second-level block exactly if it is started. */
  lemma DenseRow(s: Fs, g: Geometry, ino: nat, n: nat)
    requires g.units > 0 && Dense(s, g.first, g.units, ino, n)
    ensures n < g.first * g.units ==> (Entry(s.inodes, ino, Quo(n, g.units)) != 0 <==> Rem(n, g.units) != 0)
  {
    NthFits(n, g.first, g.units);
    RowStarted(g.units, n);
  }

  lemma SpareAfter(s: Fs, owner: map<nat, Slot>, free: seq<bool>, g: Geometry, b: nat)
    requires Sane(s, owner, free, g) && Lowest(free, b) && g.low <= b < g.high
    ensures Sane(s, owner, free[b := false], g) && Spare(owner, free[b := false], g, b)
  {
    FreeUnowned(s, owner, free, g, b);
  }

  lemma NamedBlock(s: Fs, t: Fs, g: Geometry, ino: nat, nth: nat, b: nat)
    requires g.units > 0 && NamedAt(s, t, g, ino, nth, b)
    ensures BlockNo(t, g.units, ino, nth) == b
  {
  }

  lemma NamedDense(s: Fs, t: Fs, g: Geometry, ino: nat, nth: nat, b: nat)
    requires g.units > 0 && NamedAt(s, t, g, ino, nth, b) && b != 0 && nth < g.first * g.units
    requires Dense(s, g.first, g.units, ino, nth)
    ensures Dense(t, g.first, g.units, ino, nth + 1)
  {
    hide SameBut, Dense;
    forall k: nat | k != nth ensures BlockNo(t, g.units, ino, k) == BlockNo(s, g.units, ino, k) {
      if Quo(k, g.units) == Quo(nth, g.units) && Rem(k, g.units) == Rem(nth, g.units) {
        SameNth(k, nth, g.units);
      }
      assert Data(ino, Quo(k, g.units), Rem(k, g.units)) != Data(ino, Quo(nth, g.units), Rem(nth, g.units));
    }
    forall i: nat | i < g.first && i != Quo(nth, g.units) ensures Entry(t.inodes, ino, i) == Entry(s.inodes, ino, i) {
      assert At(t, Second(ino, i)) == At(s, Second(ino, i));
    }
    DenseGrows(s, t, g.first, g.units, ino, nth);
  }

  /** Nothing of the other files moved. */
  lemma FilledOther(s: Fs, t: Fs, g: Geometry, ino: nat)
    requires g.units > 0 && Filled(s, g, {ino}) && SameSizes(s.inodes, t.inodes)
    requires forall y: Slot :: y.ino != ino ==> At(t, y) == At(s, y)
    ensures Filled(t, g, {ino})
  {
    hide At, Dense;
    forall x | x in t.inodes && x != ino
      ensures Dense(t, g.first, g.units, x, CalcBlocks(4 * g.units, t.inodes[x].size))
    {
      DenseSame(s, t, g.first, g.units, x, CalcBlocks(4 * g.units, s.inodes[x].size));
    }
  }

  lemma NamedFilled(s: Fs, t: Fs, g: Geometry, ino: nat, nth: nat, b: nat)
    requires g.units > 0 && NamedAt(s, t, g, ino, nth, b) && Filled(s, g, {ino}) && SameSizes(s.inodes, t.inodes)
    ensures Filled(t, g, {ino})
  {
    hide Filled, SameSizes, At, SameBut;
    FilledOther(s, t, g, ino);
  }

  lemma PutDense(s: Fs, t: Fs, g: Geometry, ino: nat, n: nat)
    requires g.units > 0 && s.inodes == t.inodes && forall y :: At(t, y) == At(s, y)
    requires Filled(s, g, {ino}) && Dense(s, g.first, g.units, ino, n)
    ensures Filled(t, g, {ino}) && Dense(t, g.first, g.units, ino, n)
  {
    SizesSame(s.inodes);
    FilledOther(s, t, g, ino);
    DenseSame(s, t, g.first, g.units, ino, n);
  }

  lemma PatchedAfter(s: Fs, m: Fs, t: Fs, g: Geometry, ino: nat, nth: nat, b: nat, skip: nat, chunk: seq<Byte>)
    requires g.units > 0 && NamedAt(s, m, g, ino, nth, b) && Patched(m, t, g.units, ino, nth, skip, chunk, true)
    ensures Patched(s, t, g.units, ino, nth, skip, chunk, false)
  {
    hide At, SameBut;
    SameTrans(s, m, t, Data(ino, Quo(nth, g.units), Rem(nth, g.units)));
  }

  ghost function FilesOf(s: Fs, g: Geometry): map<nat, seq<Byte>> {
    if g.units == 0 then map[] else map ino | ino in s.inodes :: Content(s, g.units, ino)
  }

  lemma SizesTrans(a: map<nat, Inode>, b: map<nat, Inode>, c: map<nat, Inode>)
    requires SameSizes(a, b) && SameSizes(b, c)
    ensures SameSizes(a, c)
  {
  }

  lemma WriteBegins(s: Fs, g: Geometry, ino: nat, off: nat, src: seq<Byte>)
    requires g.units > 0 && Filled(s, g, {}) && ino in s.inodes
    ensures Filled(s, g, {ino}) && Dense(s, g.first, g.units, ino, CalcBlocks(4 * g.units, s.inodes[ino].size))
    ensures Written(s, s, g.units, ino, off, src, 0, s.inodes[ino].size)
  {
    hide Dense, ByteAt;
  }

  /** The block a chunk goes to is there already or is the next one. */
  lemma WriteReaches(bsize: nat, off: nat, done: nat, size: nat, len: nat)
    requires bsize > 0 && off <= size && 0 < len <= bsize - Rem(off + done, bsize)
    ensures var n := CalcBlocks(bsize, if off + done > size then off + done else size);
      && Quo(off + done, bsize) <= n
      && CalcBlocks(bsize, if off + done + len > size then off + done + len else size)
         == (if Quo(off + done, bsize) < n then n else n + 1)
      && (Quo(off + done, bsize) == n ==> Rem(off + done, bsize) == 0 && size <= off + done)
  {
    var at := off + done;
    var high := if at > size then at else size;
    var n := CalcBlocks(bsize, high);
    QuoRem(at, bsize);
    CalcFits(bsize, high);
    ByteInBlock(bsize, at, n + 1);
    ByteInBlock(bsize, at, n);
    NextRow(n, bsize);
    CalcStep(bsize, at, len);
    if at + len > size {
      CalcMonotonic(bsize, high, at + len);
    } else {
      CalcMonotonic(bsize, at + len, size);
    }
    hide CalcBlocks, Quo, Rem;
  }

  lemma WriteStep(s: Fs, m: Fs, t: Fs, g: Geometry, ino: nat, off: nat, src: seq<Byte>, done: nat, size: nat, len: nat,
                  n: nat)
    requires g.units > 0 && off <= size && done + len <= |src| && 0 < len <= 4 * g.units - Rem(off + done, 4 * g.units)
    requires Written(s, m, g.units, ino, off, src, done, size)
    requires n == CalcBlocks(4 * g.units, if off + done > size then off + done else size)
    requires Patched(m, t, g.units, ino, Quo(off + done, 4 * g.units), Rem(off + done, 4 * g.units),
                     src[done..done + len], Quo(off + done, 4 * g.units) < n)
    requires len == |src| - done || len == 4 * g.units - Rem(off + done, 4 * g.units)
    ensures Written(s, t, g.units, ino, off, src, done + len, size)
    ensures done + len < |src| ==> Quo(off + done + len, 4 * g.units) == Quo(off + done, 4 * g.units) + 1
    ensures done + len < |src| ==> Rem(off + done + len, 4 * g.units) == 0
  {
    hide Patched, Written, CalcBlocks, Quo, Rem;
    WriteReaches(4 * g.units, off, done, size, len);
    WrittenStep(s, m, t, g.units, ino, off, src, done, size, len, Quo(off + done, 4 * g.units) < n);
    if done + len < |src| {
      NextChunk(4 * g.units, off + done, len);
    }
  }

  lemma WriteEnds(s: Fs, t: Fs, u: Fs, owner: map<nat, Slot>, free: seq<bool>, g: Geometry, ino: nat, off: nat,
                  src: seq<Byte>, done: nat, n: nat)
    requires Sane(t, owner, free, g) && ino in s.inodes && off <= s.inodes[ino].size && SameSizes(s.inodes, t.inodes)
    requires Written(s, t, g.units, ino, off, src, done, s.inodes[ino].size)
    requires Filled(t, g, {ino}) && Dense(t, g.first, g.units, ino, n)
    requires var high := if off + done > s.inodes[ino].size then off + done else s.inodes[ino].size;
      n == CalcBlocks(4 * g.units, high) && u == SetSize(t, ino, high)
    ensures Sane(u, owner, free, g) && Filled(u, g, {})
    ensures FilesOf(u, g) == FilesOf(s, g)[ino := Splice(FilesOf(s, g)[ino], off, src[..done])]
  {
    var high := u.inodes[ino].size;
    SizeSet(t, owner, free, g, ino, high);
    WriteFills(t, u, g, ino, n);
    SizedBytes(t, u, g.units);
    WrittenSized(s, t, u, g.units, ino, off, src, done);
    hide Sane, Filled, Dense, Written, FilesOf;
    WriteFiles(s, u, g, ino, off, src, done);
  }

  lemma KeepSize(inodes: map<nat, Inode>, t: Fs, ino: nat)
    requires SameSizes(inodes, t.inodes) && ino in inodes
    ensures ino in t.inodes && t.inodes[ino].size == inodes[ino].size && SetSize(t, ino, inodes[ino].size) == t
  {
  }

  lemma WriteFiles(s: Fs, u: Fs, g: Geometry, ino: nat, off: nat, src: seq<Byte>, done: nat)
    requires g.units > 0 && ino in s.inodes && Written(s, u, g.units, ino, off, src, done, s.inodes[ino].size)
    requires off <= s.inodes[ino].size
    requires forall x :: x in s.inodes <==> x in u.inodes
    requires forall x :: x in s.inodes && x in u.inodes && x != ino ==> s.inodes[x].size == u.inodes[x].size
    requires u.inodes[ino].size == if off + done > s.inodes[ino].size then off + done else s.inodes[ino].size
    ensures FilesOf(u, g) == FilesOf(s, g)[ino := Splice(FilesOf(s, g)[ino], off, src[..done])]
  {
    WrittenContent(s, u, g.units, ino, off, src, done);
    WriteOthers(s, u, g, ino, off, src, done);
    hide Written, Content, Splice;
  }

  lemma WriteFills(t: Fs, u: Fs, g: Geometry, ino: nat, n: nat)
    requires g.units > 0 && Filled(t, g, {ino}) && Dense(t, g.first, g.units, ino, n) && ino in t.inodes
    requires ino in u.inodes && u == SetSize(t, ino, u.inodes[ino].size)
      && n == CalcBlocks(4 * g.units, u.inodes[ino].size)
    requires forall y :: At(u, y) == At(t, y)
    ensures Filled(u, g, {})
  {
    hide At, Dense;
    forall x | x in u.inodes ensures Dense(u, g.first, g.units, x, CalcBlocks(4 * g.units, u.inodes[x].size)) {
      DenseSame(t, u, g.first, g.units, x, CalcBlocks(4 * g.units, u.inodes[x].size));
    }
  }

  /** Bytes are where the disk and the block numbers say. */
  lemma SizedBytes(t: Fs, u: Fs, units: nat)
    requires units > 0 && t.disk == u.disk && forall y :: At(u, y) == At(t, y)
    ensures forall ino, k: nat :: ByteAt(u, units, ino, k) == ByteAt(t, units, ino, k)
  {
    hide At, AsBytes, Quo, Rem;
  }

  lemma WrittenSized(s: Fs, t: Fs, u: Fs, units: nat, ino: nat, off: nat, src: seq<Byte>, done: nat)
    requires units > 0 && ino in s.inodes && Written(s, t, units, ino, off, src, done, s.inodes[ino].size)
    requires forall x, k: nat :: ByteAt(u, units, x, k) == ByteAt(t, units, x, k)
    ensures Written(s, u, units, ino, off, src, done, s.inodes[ino].size)
  {
    hide ByteAt;
  }

  lemma WriteOthers(s: Fs, u: Fs, g: Geometry, ino: nat, off: nat, src: seq<Byte>, done: nat)
    requires g.units > 0 && ino in s.inodes && Written(s, u, g.units, ino, off, src, done, s.inodes[ino].size)
    requires forall x :: x in s.inodes <==> x in u.inodes
    requires forall x :: x in s.inodes && x in u.inodes && x != ino ==> s.inodes[x].size == u.inodes[x].size
    ensures forall x :: x in s.inodes && x in u.inodes && x != ino ==> Content(u, g.units, x) == Content(s, g.units, x)
  {
    hide ByteAt;
    forall x | x in s.inodes && x in u.inodes && x != ino ensures Content(u, g.units, x) == Content(s, g.units, x) {
      OtherContent(s, u, g.units, x);
    }
  }

  lemma ReadReaches(s: Fs, g: Geometry, ino: nat, k: nat)
    requires g.units > 0 && Filled(s, g, {}) && ino in s.inodes && k < s.inodes[ino].size
    ensures Quo(k, 4 * g.units) < g.first * g.units && BlockNo(s, g.units, ino, Quo(k, 4 * g.units)) != 0
  {
    var n := CalcBlocks(4 * g.units, s.inodes[ino].size);
    CalcFits(4 * g.units, s.inodes[ino].size);
    ByteInBlock(4 * g.units, k, n);
    assert Dense(s, g.first, g.units, ino, n);
  }

  /** A byte has a block exactly if it lies before the end of the blocks. */
  lemma BlockThere(s: Fs, g: Geometry, ino: nat, k: nat)
    requires g.units > 0 && Filled(s, g, {}) && ino in s.inodes
    ensures var n := CalcBlocks(4 * g.units, s.inodes[ino].size);
      && (k < n * (4 * g.units) <==> Quo(k, 4 * g.units) < n)
      && (Quo(k, 4 * g.units) < g.first * g.units && BlockNo(s, g.units, ino, Quo(k, 4 * g.units)) != 0 <==>
          Quo(k, 4 * g.units) < n)
  {
    var n := CalcBlocks(4 * g.units, s.inodes[ino].size);
    ByteInBlock(4 * g.units, k, n);
    assert Dense(s, g.first, g.units, ino, n);
    hide CalcBlocks, Quo, BlockNo;
  }

  lemma ChunkWithin(bsize: nat, at: nat, len: nat, n: nat)
    requires bsize > 0 && Quo(at, bsize) < n && len <= bsize - Rem(at, bsize)
    ensures at + len <= n * bsize
  {
    QuoRem(at, bsize);
    Steps(Quo(at, bsize), n, bsize);
  }

  lemma BlockNamed(s: Fs, owner: map<nat, Slot>, free: seq<bool>, g: Geometry, ino: nat, nth: nat)
    requires Sane(s, owner, free, g) && BlockNo(s, g.units, ino, nth) != 0
    ensures BlockNo(s, g.units, ino, nth) in s.disk
  {
    NamedIn(s, owner, free, g, Data(ino, Quo(nth, g.units), Rem(nth, g.units)));
  }

  lemma ReadByte(s: Fs, g: Geometry, ino: nat, at: nat, m: nat)
    requires g.units > 0 && m < 4 * g.units - Rem(at, 4 * g.units)
    ensures ByteAt(s, g.units, ino, at + m)
         == AsBytes(BlockOf(s, BlockNo(s, g.units, ino, Quo(at, 4 * g.units))), 4 * g.units)[Rem(at, 4 * g.units) + m]
  {
    SameBlock(4 * g.units, at, at + m);
  }

  /** Some entries of one second-level block were emptied; what is left is what it was. */
  ghost predicate Partial(s: Fs, t: Fs, ino: nat, i: nat, from: nat, to: nat) {
    && s.inodes == t.inodes
    && (forall y: Slot :: At(t, y) == if y.Data? && y.ino == ino && y.i == i && from <= y.j < to then 0 else At(s, y))
    && forall y: Slot :: y.Data? && At(t, y) != 0 ==> BlockOf(t, At(t, y)) == BlockOf(s, At(t, y))
  }

  /** Once an entry is empty, so are those behind it. */
  ghost predicate Unbroken(s: Fs, ino: nat, i: nat) {
    forall j, j' :: j < j' && At(s, Data(ino, i, j)) == 0 ==> At(s, Data(ino, i, j')) == 0
  }

  /** A second-level block went with everything in it. */
  ghost predicate EntryGone(s: Fs, t: Fs, ino: nat, i: nat) {
    && (forall y: Slot :: At(t, y) == if !y.Node? && y.ino == ino && y.i == i then 0 else At(s, y))
    && forall y: Slot :: y.Data? && At(t, y) != 0 ==> BlockOf(t, At(t, y)) == BlockOf(s, At(t, y))
  }

  lemma LessOne(owner: map<nat, Slot>, b: nat)
    requires b in owner
    ensures |owner - {b}| == |owner| - 1
  {
    assert (owner - {b})[b := owner[b]] == owner;
  }

  lemma EntryBelow(s: Fs, ino: nat, i: nat)
    requires Entry(s.inodes, ino, i) != 0
    ensures ino in s.inodes && i < |s.inodes[ino].ib| && s.inodes[ino].ib[i] == Entry(s.inodes, ino, i)
  {
  }

  lemma RefBelow(s: Fs, g: Geometry, ino: nat, i: nat, j: nat)
    requires Entry(s.inodes, ino, i) != 0 && At(s, Data(ino, i, j)) != 0
    requires var c := Entry(s.inodes, ino, i); c in s.disk && s.disk[c].Refs? && |s.disk[c].refs| == g.units
    ensures j < g.units && s.disk[Entry(s.inodes, ino, i)].refs[j] == At(s, Data(ino, i, j))
  {
  }

  lemma PartialOne(s: Fs, t: Fs, ino: nat, i: nat, j: nat)
    requires s.inodes == t.inodes && SameBut(s, t, Data(ino, i, j))
    requires forall y :: At(t, y) == if y == Data(ino, i, j) then 0 else At(s, y)
    ensures Partial(s, t, ino, i, j, j + 1)
  {
    hide At, BlockOf;
    forall y: Slot ensures (y.Data? && y.ino == ino && y.i == i && j <= y.j < j + 1) <==> y == Data(ino, i, j) {
    }
  }

  lemma PartialNone(s: Fs, ino: nat, i: nat, from: nat)
    ensures Partial(s, s, ino, i, from, from)
  {
    hide At, BlockOf;
  }

  lemma PartialStep(s: Fs, m: Fs, t: Fs, ino: nat, i: nat, from: nat, j: nat)
    requires Partial(s, m, ino, i, from, j) && Partial(m, t, ino, i, j, j + 1) && from <= j
    ensures Partial(s, t, ino, i, from, j + 1)
  {
    hide At, BlockOf;
  }

  lemma SecondIs(s: Fs, owner: map<nat, Slot>, free: seq<bool>, g: Geometry, ino: nat, i: nat, j: nat)
    requires Sane(s, owner, free, g) && Entry(s.inodes, ino, i) != 0
    ensures var c := Entry(s.inodes, ino, i); c in s.disk && s.disk[c].Refs? && |s.disk[c].refs| == g.units
    ensures At(s, Data(ino, i, j)) == if j < g.units then s.disk[Entry(s.inodes, ino, i)].refs[j] else 0
  {
    SecondLevel(s, g, ino, i);
  }

  lemma PartialRun(s: Fs, t: Fs, owner: map<nat, Slot>, free: seq<bool>, g: Geometry, ino: nat, i: nat, from: nat,
                   j: nat)
    requires Partial(s, t, ino, i, from, j) && Unbroken(s, ino, i) && from <= j && (j <= g.units || j == from)
    requires j >= g.units || At(t, Data(ino, i, j)) == 0
    requires Sane(t, owner, free, g) && Entry(t.inodes, ino, i) != 0
    ensures Partial(s, t, ino, i, from, g.units)
  {
    hide BlockOf;
    forall y: Slot | y.Data? && y.ino == ino && y.i == i
      ensures At(t, y) == if from <= y.j < g.units then 0 else At(s, y)
    {
      assert y == Data(ino, i, y.j);
      SecondIs(t, owner, free, g, ino, i, y.j);
      hide Sane, At;
      if j < g.units {
        assert At(s, Data(ino, i, j)) == 0;
      }
    }
    hide Sane, At, Unbroken;
  }

  lemma EntryEmpty(s: Fs, t: Fs, owner: map<nat, Slot>, free: seq<bool>, g: Geometry, ino: nat, i: nat)
    requires Partial(s, t, ino, i, 0, g.units) && Sane(t, owner, free, g) && Entry(t.inodes, ino, i) != 0
    ensures forall j :: At(t, Data(ino, i, j)) == 0
  {
    forall j ensures At(t, Data(ino, i, j)) == 0 {
      SecondIs(t, owner, free, g, ino, i, j);
      assert Data(ino, i, j).Data?;
    }
  }

  lemma EntrySizes(s: Fs, ino: nat, i: nat)
    ensures SameSizes(s.inodes, SetEntry(s, ino, i, 0).inodes)
  {
  }

  lemma EntryGoes(s: Fs, m: Fs, t: Fs, g: Geometry, ino: nat, i: nat)
    requires Partial(s, m, ino, i, 0, g.units) && m.disk == t.disk
    requires forall j :: At(m, Data(ino, i, j)) == 0
    requires forall y :: At(t, y) == if y == Second(ino, i) then 0 else At(m, y)
    ensures EntryGone(s, t, ino, i)
  {
    hide At;
    forall y: Slot ensures At(t, y) == if !y.Node? && y.ino == ino && y.i == i then 0 else At(s, y) {
      if y.Data? && y.ino == ino && y.i == i {
        assert y == Data(ino, i, y.j);
      } else if y.Second? && y.ino == ino && y.i == i {
        assert y == Second(ino, i);
      }
    }
  }

  /** The slots of a file from entry `q`, place `r` on. */
  predicate Gone(y: Slot, ino: nat, q: nat, r: nat) {
    !y.Node? && y.ino == ino && (y.i > q || (y.i == q && if y.Data? then y.j >= r else r == 0))
  }

  /** Those slots were emptied in the entries below `top`; what is left is what it was. */
  ghost predicate Cut(s: Fs, t: Fs, ino: nat, q: nat, r: nat, top: nat) {
    && (forall y: Slot :: At(t, y) == if Gone(y, ino, q, r) && y.i < top then 0 else At(s, y))
    && forall y: Slot :: y.Data? && At(t, y) != 0 ==> BlockOf(t, At(t, y)) == BlockOf(s, At(t, y))
  }

  lemma CutNone(s: Fs, ino: nat, q: nat, r: nat)
    ensures Cut(s, s, ino, q, r, q)
  {
    hide At, BlockOf;
  }

  lemma DenseReaches(s: Fs, g: Geometry, ino: nat, n: nat, count: nat)
    requires g.units > 0 && Dense(s, g.first, g.units, ino, n) && count < n
    ensures Quo(count, g.units) < g.first && Entry(s.inodes, ino, Quo(count, g.units)) != 0
  {
    NthFits(count, g.first, g.units);
    QuoRem(count, g.units);
  }

  lemma DenseData(s: Fs, owner: map<nat, Slot>, free: seq<bool>, g: Geometry, ino: nat, n: nat, i: nat, j: nat)
    requires Sane(s, owner, free, g) && ino in s.inodes && Dense(s, g.first, g.units, ino, n)
    ensures At(s, Data(ino, i, j)) != 0 <==> i < g.first && j < g.units && i * g.units + j < n
  {
    if i < g.first && j < g.units {
      NthOf(i, j, g.units);
      NthFits(i * g.units + j, g.first, g.units);
      assert BlockNo(s, g.units, ino, i * g.units + j) == At(s, Data(ino, i, j));
    } else if i < g.first {
      if Entry(s.inodes, ino, i) != 0 {
        SecondIs(s, owner, free, g, ino, i, j);
      }
    }
  }

  lemma DenseRun(s: Fs, owner: map<nat, Slot>, free: seq<bool>, g: Geometry, ino: nat, n: nat, i: nat)
    requires Sane(s, owner, free, g) && ino in s.inodes && Dense(s, g.first, g.units, ino, n)
    ensures Unbroken(s, ino, i)
  {
    forall j: nat, j': nat | j < j' && At(s, Data(ino, i, j)) == 0 ensures At(s, Data(ino, i, j')) == 0 {
      DenseData(s, owner, free, g, ino, n, i, j);
      DenseData(s, owner, free, g, ino, n, i, j');
      hide Sane, Dense, At;
    }
  }

  lemma CutFirst(s: Fs, t: Fs, owner: map<nat, Slot>, free: seq<bool>, g: Geometry, ino: nat, q: nat, r: nat)
    requires Partial(s, t, ino, q, r, g.units) && r != 0 && Sane(s, owner, free, g)
    ensures Cut(s, t, ino, q, r, q + 1)
  {
    forall y: Slot ensures At(t, y) == if Gone(y, ino, q, r) && y.i < q + 1 then 0 else At(s, y) {
      if y.Data? && y.ino == ino && y.i == q && y.j >= g.units {
        Beyond(s, owner, free, g, y);
      }
      hide Sane, At, BlockOf;
    }
    hide Sane, At, BlockOf;
  }

  lemma Beyond(s: Fs, owner: map<nat, Slot>, free: seq<bool>, g: Geometry, y: Slot)
    requires Sane(s, owner, free, g) && y.Data? && (y.j >= g.units || y.i >= g.first)
    ensures At(s, y) == 0
  {
    if Entry(s.inodes, y.ino, y.i) != 0 {
      SecondIs(s, owner, free, g, y.ino, y.i, y.j);
    }
  }

  lemma CutEntry(s: Fs, m: Fs, ino: nat, q: nat, r: nat, index: nat)
    requires Cut(s, m, ino, q, r, index)
    ensures Entry(m.inodes, ino, index) == Entry(s.inodes, ino, index)
  {
    assert At(m, Second(ino, index)) == At(s, Second(ino, index));
  }

  lemma NoCost(units: nat)
    requires units > 0
    ensures Cost(units, 0) == 0
  {
    CalcFits(4 * units, 0);
    CalcFits(units, 0);
  }

  /** A second-level block names so many blocks. */
  ghost predicate RowHas(s: Fs, ino: nat, i: nat, k: nat) {
    forall j: nat :: At(s, Data(ino, i, j)) != 0 <==> j < k
  }

  lemma RowNext(s: Fs, m: Fs, ino: nat, i: nat, from: nat, j: nat, k: nat)
    requires RowHas(s, ino, i, k) && Partial(s, m, ino, i, from, j) && from <= j <= k
    ensures At(m, Data(ino, i, j)) != 0 <==> j < k
  {
    hide BlockOf;
  }

  lemma DenseRowHas(s: Fs, owner: map<nat, Slot>, free: seq<bool>, g: Geometry, ino: nat, n: nat, i: nat)
    requires Sane(s, owner, free, g) && ino in s.inodes && Dense(s, g.first, g.units, ino, n) && i < g.first
    ensures RowHas(s, ino, i, RowLen(g.units, n, i)) && RowLen(g.units, n, i) <= g.units
  {
    forall j: nat ensures At(s, Data(ino, i, j)) != 0 <==> j < RowLen(g.units, n, i) {
      DenseData(s, owner, free, g, ino, n, i, j);
      hide Sane, Dense, At;
    }
    hide Sane, Dense, At;
  }

  /** The entries end where the blocks do. */
  lemma DenseEnds(s: Fs, g: Geometry, ino: nat, n: nat, i: nat)
    requires g.units > 0 && Dense(s, g.first, g.units, ino, n) && i <= g.first
    ensures i == g.first ==> Below(g.units, n, i) == n
    ensures i < g.first && Entry(s.inodes, ino, i) == 0 ==> Below(g.units, n, i) == n
    ensures i < g.first && Entry(s.inodes, ino, i) != 0 ==> i * g.units < n
  {
    hide BlockNo;
  }

  lemma RowsBegin(units: nat, n: nat, count: nat)
    requires units > 0 && count < n && Rem(count, units) == 0
    ensures Below(units, n, Quo(count, units)) == count
  {
    QuoRem(count, units);
  }

  lemma CutRow(s: Fs, m: Fs, ino: nat, q: nat, r: nat, index: nat, k: nat)
    requires Cut(s, m, ino, q, r, index) && RowHas(s, ino, index, k)
    ensures RowHas(m, ino, index, k)
  {
    hide BlockOf;
  }

  lemma CutRun(s: Fs, m: Fs, ino: nat, q: nat, r: nat, index: nat)
    requires Cut(s, m, ino, q, r, index) && Unbroken(s, ino, index)
    ensures Unbroken(m, ino, index)
  {
    hide At, BlockOf;
  }

  lemma CutStep(s: Fs, m: Fs, t: Fs, ino: nat, q: nat, r: nat, index: nat)
    requires Cut(s, m, ino, q, r, index) && EntryGone(m, t, ino, index) && q <= index && (index == q ==> r == 0)
    ensures Cut(s, t, ino, q, r, index + 1)
  {
    hide At, BlockOf;
  }

  lemma CutAll(s: Fs, t: Fs, owner: map<nat, Slot>, free: seq<bool>, g: Geometry, ino: nat, n: nat, q: nat, r: nat,
               index: nat)
    requires Sane(s, owner, free, g) && ino in s.inodes && Dense(s, g.first, g.units, ino, n)
    requires Cut(s, t, ino, q, r, index) && index <= g.first && (index == g.first || Entry(s.inodes, ino, index) == 0)
    ensures Cut(s, t, ino, q, r, g.first)
  {
    forall y: Slot | !y.Node? && y.ino == ino && index <= y.i < g.first ensures At(s, y) == 0 {
      if index < y.i {
        Steps(index, y.i, g.units);
      }
      assert Entry(s.inodes, ino, y.i) == 0;
    }
    hide Sane, Dense, At, BlockOf;
  }

  /** Being before the cut and being among the first `count` blocks is the same. */
  lemma LexNth(i: nat, j: nat, count: nat, units: nat)
    requires units > 0 && j < units
    ensures i * units + j < count <==> i < Quo(count, units) || (i == Quo(count, units) && j < Rem(count, units))
    ensures i * units < count <==> i < Quo(count, units) || (i == Quo(count, units) && Rem(count, units) > 0)
  {
    var q := Quo(count, units);
    QuoRem(count, units);
    if i < q {
      Steps(i, q, units);
    } else if q < i {
      Steps(q, i, units);
    }
  }

  lemma CutDense(s: Fs, t: Fs, owner: map<nat, Slot>, free: seq<bool>, g: Geometry, ino: nat, n: nat, count: nat)
    requires Sane(s, owner, free, g) && ino in s.inodes && Dense(s, g.first, g.units, ino, n) && count <= n
    requires Cut(s, t, ino, Quo(count, g.units), Rem(count, g.units), g.first)
    requires Filled(s, g, {ino}) && SameSizes(s.inodes, t.inodes)
    ensures Dense(t, g.first, g.units, ino, count) && Filled(t, g, {ino}) && Remains(s, t, g, ino, count)
  {
    CutDenseOne(s, t, g, ino, n, count);
    CutRemains(s, t, g, ino, n, count);
    assert forall y: Slot :: y.ino != ino ==> At(t, y) == At(s, y);
    FilledOther(s, t, g, ino);
  }

  lemma CutDenseOne(s: Fs, t: Fs, g: Geometry, ino: nat, n: nat, count: nat)
    requires g.units > 0 && Dense(s, g.first, g.units, ino, n) && count <= n
    requires Cut(s, t, ino, Quo(count, g.units), Rem(count, g.units), g.first)
    ensures Dense(t, g.first, g.units, ino, count)
  {
    forall nth: nat | nth < g.first * g.units ensures BlockNo(t, g.units, ino, nth) != 0 <==> nth < count {
      CutBlock(s, t, g, ino, count, nth);
    }
    forall i: nat | i < g.first ensures Entry(t.inodes, ino, i) != 0 <==> i * g.units < count {
      CutTable(s, t, g, ino, count, i);
      hide Entry;
      if i * g.units < count {
        assert i * g.units < n;
      }
    }
    hide Cut, BlockNo, Entry;
  }

  lemma CutBlock(s: Fs, t: Fs, g: Geometry, ino: nat, count: nat, nth: nat)
    requires g.units > 0 && nth < g.first * g.units
    requires Cut(s, t, ino, Quo(count, g.units), Rem(count, g.units), g.first)
    ensures BlockNo(t, g.units, ino, nth) == if nth < count then BlockNo(s, g.units, ino, nth) else 0
  {
    QuoRem(nth, g.units);
    NthFits(nth, g.first, g.units);
    LexNth(Quo(nth, g.units), Rem(nth, g.units), count, g.units);
    hide Quo, Rem, At, BlockOf;
  }

  lemma CutTable(s: Fs, t: Fs, g: Geometry, ino: nat, count: nat, i: nat)
    requires g.units > 0 && i < g.first
    requires Cut(s, t, ino, Quo(count, g.units), Rem(count, g.units), g.first)
    ensures Entry(t.inodes, ino, i) == if i * g.units < count then Entry(s.inodes, ino, i) else 0
  {
    LexNth(i, 0, count, g.units);
    assert At(t, Second(ino, i)) == Entry(t.inodes, ino, i) && At(s, Second(ino, i)) == Entry(s.inodes, ino, i);
    hide Quo, Rem, At, BlockOf, Entry;
  }

  /** The first `count` blocks of a file, and all blocks of the others, are there with what they held. */
  ghost predicate Remains(s: Fs, t: Fs, g: Geometry, ino: nat, count: nat)
    requires g.units > 0
  {
    && (forall nth: nat :: nth < count ==> SameBlockOf(s, t, g, ino, nth))
    && forall x, nth: nat :: x != ino && BlockNo(s, g.units, x, nth) != 0 ==> SameBlockOf(s, t, g, x, nth)
  }

  ghost predicate SameBlockOf(s: Fs, t: Fs, g: Geometry, ino: nat, nth: nat)
    requires g.units > 0
  {
    var b := BlockNo(s, g.units, ino, nth);
    b != 0 && BlockNo(t, g.units, ino, nth) == b && BlockOf(t, b) == BlockOf(s, b)
  }

  lemma CutRemains(s: Fs, t: Fs, g: Geometry, ino: nat, n: nat, count: nat)
    requires g.units > 0 && Dense(s, g.first, g.units, ino, n) && count <= n
    requires Cut(s, t, ino, Quo(count, g.units), Rem(count, g.units), g.first)
    ensures Remains(s, t, g, ino, count)
  {
    forall nth: nat | nth < count ensures SameBlockOf(s, t, g, ino, nth) {
      QuoRem(nth, g.units);
      LexNth(Quo(nth, g.units), Rem(nth, g.units), count, g.units);
      assert BlockNo(s, g.units, ino, nth) != 0;
      hide Quo, Rem, At, BlockOf, Dense;
    }
    hide At, BlockOf, Dense, Quo, Rem;
  }

  lemma NoCut(s: Fs, g: Geometry, ino: nat, count: nat)
    requires g.units > 0 && Dense(s, g.first, g.units, ino, count)
    ensures Remains(s, s, g, ino, count)
  {
  }

  lemma ShortEnds(s: Fs, t: Fs, u: Fs, owner: map<nat, Slot>, free: seq<bool>, g: Geometry, ino: nat, size: nat,
                  count: nat)
    requires Sane(t, owner, free, g) && Filled(s, g, {}) && ino in s.inodes && SameSizes(s.inodes, t.inodes)
    requires Filled(t, g, {ino}) && Dense(t, g.first, g.units, ino, count) && Remains(s, t, g, ino, count)
    requires size <= s.inodes[ino].size && count == CalcBlocks(4 * g.units, size) && u == SetSize(t, ino, size)
    ensures Sane(u, owner, free, g) && Filled(u, g, {})
    ensures FilesOf(u, g) == FilesOf(s, g)[ino := FilesOf(s, g)[ino][..size]]
  {
    SizeSet(t, owner, free, g, ino, size);
    WriteFills(t, u, g, ino, count);
    SizedBytes(t, u, g.units);
    hide Sane, FilesOf, At, Dense;
    ShortFiles(s, t, u, g, ino, size, count);
  }

  lemma RemainsByte(s: Fs, t: Fs, g: Geometry, ino: nat, k: nat)
    requires g.units > 0 && SameBlockOf(s, t, g, ino, Quo(k, 4 * g.units))
    ensures ByteAt(t, g.units, ino, k) == ByteAt(s, g.units, ino, k)
  {
    hide AsBytes, BlockNo, Quo, Rem;
  }

  lemma ShortFiles(s: Fs, t: Fs, u: Fs, g: Geometry, ino: nat, size: nat, count: nat)
    requires g.units > 0 && Filled(s, g, {}) && ino in s.inodes && SameSizes(s.inodes, t.inodes)
    requires Remains(s, t, g, ino, count) && size <= s.inodes[ino].size && count == CalcBlocks(4 * g.units, size)
    requires u == SetSize(t, ino, size) && forall x, k: nat :: ByteAt(u, g.units, x, k) == ByteAt(t, g.units, x, k)
    ensures FilesOf(u, g) == FilesOf(s, g)[ino := FilesOf(s, g)[ino][..size]]
  {
    hide ByteAt, CalcBlocks, Remains, Filled;
    forall k: nat | k < size ensures ByteAt(u, g.units, ino, k) == ByteAt(s, g.units, ino, k) {
      ShortByte(s, t, g, ino, size, count, k);
    }
    assert Content(u, g.units, ino) == Content(s, g.units, ino)[..size];
    forall x | x in s.inodes && x != ino ensures Content(u, g.units, x) == Content(s, g.units, x) {
      forall k: nat | k < s.inodes[x].size ensures ByteAt(u, g.units, x, k) == ByteAt(s, g.units, x, k) {
        OtherByte(s, t, g, ino, count, x, k);
      }
    }
    hide Content;
  }

  lemma ShortByte(s: Fs, t: Fs, g: Geometry, ino: nat, size: nat, count: nat, k: nat)
    requires g.units > 0 && Remains(s, t, g, ino, count) && count == CalcBlocks(4 * g.units, size) && k < size
    ensures ByteAt(t, g.units, ino, k) == ByteAt(s, g.units, ino, k)
  {
    CalcFits(4 * g.units, size);
    ByteInBlock(4 * g.units, k, count);
    RemainsByte(s, t, g, ino, k);
  }

  lemma OtherByte(s: Fs, t: Fs, g: Geometry, ino: nat, count: nat, x: nat, k: nat)
    requires g.units > 0 && Filled(s, g, {}) && Remains(s, t, g, ino, count) && x != ino && x in s.inodes
      && k < s.inodes[x].size
    ensures ByteAt(t, g.units, x, k) == ByteAt(s, g.units, x, k)
  {
    ReadReaches(s, g, x, k);
    RemainsByte(s, t, g, x, k);
  }

  lemma EmptyEntries(s: Fs, owner: map<nat, Slot>, free: seq<bool>, g: Geometry, ino: nat)
    requires Sane(s, owner, free, g) && Filled(s, g, {}) && ino in s.inodes && s.inodes[ino].size == 0
    ensures forall i :: Entry(s.inodes, ino, i) == 0
  {
    CalcFits(4 * g.units, 0);
    assert Dense(s, g.first, g.units, ino, 0);
  }

  datatype Operation =
    | Writes(ino: nat, off: nat, src: seq<Byte>) | Shortens(ino: nat, size: nat) | Adds | Removes(ino: nat)

  predicate Applies(files: map<nat, seq<Byte>>, op: Operation) {
    match op
    case Writes(ino, off, _) => ino in files && off <= |files[ino]|
    case Shortens(ino, size) => ino in files && size <= |files[ino]|
    case Adds => true
    case Removes(ino) => ino in files
  }

  /** What callers see of a disk: the files, and how many blocks are free. */
  datatype Store = Store(files: map<nat, seq<Byte>>, free: nat)

  /** The plain meaning; `done` is the count of bytes written or the number of the new file.  A write that does not go
      through stops at the first byte that there is no room for. */
  ghost predicate Changes(g: Geometry, a: Store, b: Store, op: Operation, done: nat)
    requires g.units > 0 && Applies(a.files, op)
  {
    match op
    case Writes(ino, off, src) =>
      var size := |a.files[ino]|;
      var left := Left(g, size, off + done, a.free);
      && done <= |src| && (done == |src| <==> Affords(g, size, off + |src|, a.free))
      && (done < |src| ==> Affords(g, size, off + done, a.free) && !Affords(g, size, off + done + 1, a.free))
      && b.files == a.files[ino := Splice(a.files[ino], off, src[..done])]
      && b.free == left - if done == |src| then 0 else Wasted(left)
    case Shortens(ino, size) =>
      && b.files == a.files[ino := a.files[ino][..size]]
      && b.free == a.free + Cost(g.units, |a.files[ino]|) - Cost(g.units, size)
    case Adds =>
      if a.free == 0 then done == 0 && b == a
      else done != 0 && done !in a.files && b == Store(a.files[done := []], a.free - 1)
    case Removes(ino) => b == Store(a.files - {ino}, a.free + Cost(g.units, |a.files[ino]|) + 1)
  }

  /** A write that found no block left, or no room in the inode, may lose the one it had just taken. */
  function CutShort(op: Operation, done: nat): nat {
    if op.Writes? && done < |op.src| then 1 else 0
  }

  /** The blocks that may be lost over a run: none if every write went through. */
  function AllCutShort(ops: seq<Operation>, done: seq<nat>): nat
    requires |done| == |ops|
  {
    if ops == [] then 0 else CutShort(ops[0], done[0]) + AllCutShort(ops[1..], done[1..])
  }

  lemma {:induction false} CutShortNext(ops: seq<Operation>, done: seq<nat>, op: Operation, n: nat)
    requires |done| == |ops|
    ensures AllCutShort(ops + [op], done + [n]) == AllCutShort(ops, done) + CutShort(op, n)
  {
    if ops == [] {
      assert [op][1..] == [] && [n][1..] == [] && ops + [op] == [op] && done + [n] == [n];
      assert AllCutShort([op][1..], [n][1..]) == 0;
    } else {
      CutShortNext(ops[1..], done[1..], op, n);
      assert (ops + [op])[1..] == ops[1..] + [op] && (done + [n])[1..] == done[1..] + [n];
    }
  }

  lemma {:induction false} NoneCutShort(ops: seq<Operation>, done: seq<nat>)
    requires |done| == |ops| && forall i :: 0 <= i < |ops| && ops[i].Writes? ==> done[i] >= |ops[i].src|
    ensures AllCutShort(ops, done) == 0
  {
    if ops != [] {
      NoneCutShort(ops[1..], done[1..]);
    }
  }

  ghost predicate Moves(g: Geometry, a: Store, b: Store, op: Operation, done: nat)
    requires g.units > 0
  {
    if Applies(a.files, op) then Changes(g, a, b, op, done) else b == a
  }

  ghost predicate Trace(g: Geometry, a: Store, ops: seq<Operation>, done: seq<nat>, b: Store, states: seq<Store>)
    requires g.units > 0 && |done| == |ops|
  {
    && |states| == |ops| + 1 && states[0] == a && states[|ops|] == b
    && forall k :: 0 <= k < |ops| ==> Moves(g, states[k], states[k + 1], ops[k], done[k])
  }

  ghost predicate Runs(g: Geometry, a: Store, ops: seq<Operation>, done: seq<nat>, b: Store)
    requires g.units > 0 && |done| == |ops|
  {
    exists states :: Trace(g, a, ops, done, b, states)
  }

  /** Every block named by a file is named by one slot only, lies among the data blocks, and is marked used. */
  ghost predicate Once(s: Fs, free: seq<bool>, g: Geometry) {
    && (forall x, y :: At(s, x) == At(s, y) != 0 ==> x == y)
    && forall x :: At(s, x) != 0 ==> g.low <= At(s, x) < g.high && At(s, x) < |free| && !free[At(s, x)]
  }

  lemma NamedOnce(s: Fs, owner: map<nat, Slot>, free: seq<bool>, g: Geometry)
    requires Sane(s, owner, free, g)
    ensures Once(s, free, g)
  {
    hide At;
  }

  lemma SizesOf(s: Fs, g: Geometry)
    requires g.units > 0
    ensures forall ino :: ino in s.inodes <==> ino in FilesOf(s, g)
    ensures forall ino :: ino in s.inodes && ino in FilesOf(s, g) ==> |FilesOf(s, g)[ino]| == s.inodes[ino].size
  {
    hide ByteAt;
  }

  lemma NewFile(s: Fs, owner: map<nat, Slot>, free: seq<bool>, g: Geometry, b: nat)
    requires Sane(s, owner, free, g) && Filled(s, g, {}) && b !in s.inodes && b != 0 && Spare(owner, free, g, b)
    ensures var t := s.(inodes := s.inodes[b := Inode(0, seq(g.first, _ => 0))]);
      Filled(t, g, {}) && FilesOf(t, g) == FilesOf(s, g)[b := []] && b !in FilesOf(s, g)
  {
    var t := s.(inodes := s.inodes[b := Inode(0, seq(g.first, _ => 0))]);
    NodeGained(s, b, g.first);
    NewDense(t, g, b);
    hide Sane, At, Dense;
    forall x | x in t.inodes ensures Dense(t, g.first, g.units, x, CalcBlocks(4 * g.units, t.inodes[x].size)) {
      if x != b {
        DenseSame(s, t, g.first, g.units, x, CalcBlocks(4 * g.units, s.inodes[x].size));
      }
    }
    NodeBytes(s, t, g, b);
  }

  lemma NewDense(t: Fs, g: Geometry, b: nat)
    requires g.units > 0 && b in t.inodes && t.inodes[b] == Inode(0, seq(g.first, _ => 0))
    ensures Dense(t, g.first, g.units, b, CalcBlocks(4 * g.units, 0))
  {
    CalcFits(4 * g.units, 0);
    assert forall i :: Entry(t.inodes, b, i) == 0;
    forall i: nat | i < g.first ensures !(i * g.units < 0) {
      Steps(0, i + 1, g.units);
    }
  }

  /** Files other than one that came or went are as they were. */
  lemma NodeBytes(s: Fs, t: Fs, g: Geometry, b: nat)
    requires g.units > 0 && s.disk == t.disk && forall y :: y != Node(b) ==> At(t, y) == At(s, y)
    requires forall x :: x != b ==> (x in s.inodes <==> x in t.inodes) && (x in s.inodes ==> s.inodes[x] == t.inodes[x])
    ensures forall x :: x in s.inodes && x in t.inodes && x != b ==> Content(t, g.units, x) == Content(s, g.units, x)
  {
    forall x: nat, k: nat ensures ByteAt(t, g.units, x, k) == ByteAt(s, g.units, x, k) {
      hide At, AsBytes, Quo, Rem;
    }
    hide ByteAt, At;
    forall x | x in s.inodes && x in t.inodes && x != b ensures Content(t, g.units, x) == Content(s, g.units, x) {
      OtherContent(s, t, g.units, x);
    }
  }

  lemma OldFile(s: Fs, g: Geometry, b: nat)
    requires g.units > 0 && Filled(s, g, {}) && b in s.inodes && forall i :: Entry(s.inodes, b, i) == 0
    ensures var t := s.(inodes := s.inodes - {b}); Filled(t, g, {}) && FilesOf(t, g) == FilesOf(s, g) - {b}
  {
    var t := s.(inodes := s.inodes - {b});
    NodeLost(s, b);
    hide At, Dense;
    forall x | x in t.inodes ensures Dense(t, g.first, g.units, x, CalcBlocks(4 * g.units, t.inodes[x].size)) {
      DenseSame(s, t, g.first, g.units, x, CalcBlocks(4 * g.units, s.inodes[x].size));
    }
    NodeBytes(s, t, g, b);
  }

  lemma AllocatedFree(free: seq<bool>, b: nat)
    requires Lowest(free, b)
    ensures b < |free| && free[b]
  {
  }

  /** A table entry came to name a block, and all else is the same. */
  ghost predicate EntryNamed(s: Fs, t: Fs, ino: nat, i: nat, c: nat) {
    && (forall y :: At(t, y) == if y == Second(ino, i) then c else At(s, y))
    && forall x: Slot :: x.Data? ==> SameBut(s, t, x)
  }

  /** An entry of a second-level block came to name a block, and all else is the same. */
  ghost predicate RefNamed(s: Fs, t: Fs, x: Slot, b: nat) {
    (forall y :: At(t, y) == if y == x then b else At(s, y)) && SameBut(s, t, x)
  }

  lemma EntryIs(s: Fs, owner: map<nat, Slot>, free: seq<bool>, g: Geometry, ino: nat, i: nat)
    requires Sane(s, owner, free, g) && ino in s.inodes && i < g.first
    ensures i < |s.inodes[ino].ib| && s.inodes[ino].ib[i] == Entry(s.inodes, ino, i) == At(s, Second(ino, i))
  {
  }

  lemma EntryNamedFacts(s: Fs, t: Fs, ino: nat, i: nat, c: nat, x: Slot)
    requires EntryNamed(s, t, ino, i, c) && x.Data? && c != 0
    ensures Entry(t.inodes, ino, i) != 0 && At(t, x) == At(s, x)
  {
    assert At(t, Second(ino, i)) == c;
  }

  lemma NamedBoth(s: Fs, m: Fs, t: Fs, g: Geometry, ino: nat, nth: nat, b: nat)
    requires g.units > 0 && RefNamed(m, t, Data(ino, Quo(nth, g.units), Rem(nth, g.units)), b)
    requires Entry(m.inodes, ino, Quo(nth, g.units)) != 0
    requires m == s || exists c :: EntryNamed(s, m, ino, Quo(nth, g.units), c)
    ensures NamedAt(s, t, g, ino, nth, b)
  {
    var i := Quo(nth, g.units);
    var x := Data(ino, i, Rem(nth, g.units));
    assert At(m, Second(ino, i)) != 0 && At(t, Second(ino, i)) == At(m, Second(ino, i));
    assert At(t, x) == b;
    if m != s {
      var c :| EntryNamed(s, m, ino, i, c);
      SameTrans(s, m, t, x);
    }
    hide SameBut;
  }

  lemma TableSize(s: Fs, g: Geometry, ino: nat)
    requires Typed(s, g.first, g.units) && ino in s.inodes
    ensures |s.inodes[ino].ib| == g.first
  {
  }

  lemma SecondLevel(s: Fs, g: Geometry, ino: nat, i: nat)
    requires Typed(s, g.first, g.units) && Entry(s.inodes, ino, i) != 0
    ensures var c := Entry(s.inodes, ino, i); c in s.disk && s.disk[c].Refs? && |s.disk[c].refs| == g.units
  {
  }

  /** The `nth` block of a file was named, and its second-level block if it had none; all else is the same. */
  ghost predicate NamedAt(s: Fs, t: Fs, g: Geometry, ino: nat, nth: nat, b: nat)
    requires g.units > 0
  {
    && BlockNo(t, g.units, ino, nth) == b && Entry(t.inodes, ino, Quo(nth, g.units)) != 0
    && (forall y :: y != Data(ino, Quo(nth, g.units), Rem(nth, g.units)) && y != Second(ino, Quo(nth, g.units)) ==>
      At(t, y) == At(s, y))
    && SameBut(s, t, Data(ino, Quo(nth, g.units), Rem(nth, g.units)))
  }
}
