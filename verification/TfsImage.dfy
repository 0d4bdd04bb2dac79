/** An image in which used blocks, block numbers and owners agree, and the steps that keep it so. */
module TfsImage {
  import opened Octets
  import opened TfsSlots
  import opened TfsFiles

  /** The shape of an image: the data blocks, and the entries of an inode and of a second-level block. */
  datatype Geometry = Geometry(low: nat, high: nat, first: nat, units: nat)

  ghost predicate Used(owner: map<nat, Slot>, free: seq<bool>, g: Geometry) {
    forall b :: b in owner ==> g.low <= b < g.high && b < |free| && !free[b]
  }

  ghost predicate Backed(disk: map<nat, Block>, g: Geometry) {
    forall b :: g.low <= b < g.high ==> b in disk
  }

  ghost predicate Sane(s: Fs, owner: map<nat, Slot>, free: seq<bool>, g: Geometry) {
    && 0 < g.low && g.high <= |free| && 0 < g.units
    && Owned(s, owner) && Typed(s, g.first, g.units) && Used(owner, free, g) && Backed(s.disk, g)
  }

  /** A block taken from the allocator that nothing names yet. */
  predicate Spare(owner: map<nat, Slot>, free: seq<bool>, g: Geometry, b: nat) {
    g.low <= b < g.high && b < |free| && !free[b] && b !in owner
  }

  lemma FreeUnowned(s: Fs, owner: map<nat, Slot>, free: seq<bool>, g: Geometry, b: nat)
    requires Sane(s, owner, free, g) && b < |free| && free[b]
    ensures b !in owner && Sane(s, owner, free[b := false], g)
  {
    hide Owned, Typed, Backed;
  }

  function WithEntry(s: Fs, g: Geometry, ino: nat, i: nat, c: nat): Fs {
    SetEntry(SetBlock(s, c, Refs(seq(g.units, _ => 0))), ino, i, c)
  }

  lemma EntryTyped(s: Fs, owner: map<nat, Slot>, g: Geometry, ino: nat, i: nat, c: nat)
    requires Owned(s, owner) && Typed(s, g.first, g.units) && ino in s.inodes && i < |s.inodes[ino].ib|
    requires c != 0 && c !in owner && Entry(s.inodes, ino, i) == 0
    ensures Typed(WithEntry(s, g, ino, i, c), g.first, g.units)
  {
    var t := WithEntry(s, g, ino, i, c);
    forall ino', i' | Entry(t.inodes, ino', i') != 0
      ensures Entry(t.inodes, ino', i') in t.disk && t.disk[Entry(t.inodes, ino', i')].Refs?
              && |t.disk[Entry(t.inodes, ino', i')].refs| == g.units
    {
      if ino' != ino || i' != i {
        var e := Entry(s.inodes, ino', i');
        assert e == At(s, Second(ino', i')) && e in owner;
      }
    }
  }

  lemma EntryAdded(s: Fs, owner: map<nat, Slot>, free: seq<bool>, g: Geometry, ino: nat, i: nat, c: nat)
    requires Sane(s, owner, free, g) && Spare(owner, free, g, c) && ino in s.inodes && i < g.first
    requires Entry(s.inodes, ino, i) == 0
    ensures Sane(WithEntry(s, g, ino, i, c), owner[c := Second(ino, i)], free, g)
    ensures forall y :: At(WithEntry(s, g, ino, i, c), y) == if y == Second(ino, i) then c else At(s, y)
    ensures forall x: Slot :: x.Data? ==> SameBut(s, WithEntry(s, g, ino, i, c), x)
  {
    EntryTyped(s, owner, g, ino, i, c);
    EntryGained(s, owner, ino, i, c, g.units);
    Gained(s, WithEntry(s, g, ino, i, c), owner, Second(ino, i), c);
    EntrySame(s, owner, g, ino, i, c);
    hide Owned, Typed, At, SameBut;
  }

  lemma EntrySame(s: Fs, owner: map<nat, Slot>, g: Geometry, ino: nat, i: nat, c: nat)
    requires Owned(s, owner) && c != 0 && c !in owner
    requires forall y :: At(WithEntry(s, g, ino, i, c), y) == if y == Second(ino, i) then c else At(s, y)
    ensures forall x: Slot :: x.Data? ==> SameBut(s, WithEntry(s, g, ino, i, c), x)
  {
    var t := WithEntry(s, g, ino, i, c);
    forall y: Slot | y.Data? ensures At(t, y) == At(s, y) && BlockOf(t, At(t, y)) == BlockOf(s, At(s, y)) {
      assert At(s, y) != 0 ==> At(s, y) in owner;
    }
    hide Owned, At;
  }

  lemma RefTyped(s: Fs, g: Geometry, c: nat, j: nat, b: nat)
    requires Typed(s, g.first, g.units)
    ensures Typed(SetRef(s, c, j, b), g.first, g.units)
  {
  }

  lemma RefSame(s: Fs, owner: map<nat, Slot>, ino: nat, i: nat, j: nat, b: nat)
    requires Owned(s, owner) && Entry(s.inodes, ino, i) != 0
    requires forall y :: At(SetRef(s, Entry(s.inodes, ino, i), j, b), y) == if y == Data(ino, i, j) then b else At(s, y)
    ensures SameBut(s, SetRef(s, Entry(s.inodes, ino, i), j, b), Data(ino, i, j))
  {
    var c := Entry(s.inodes, ino, i);
    var t := SetRef(s, c, j, b);
    assert At(s, Second(ino, i)) == c;
    forall y: Slot | y.Data? && y != Data(ino, i, j)
      ensures At(t, y) == At(s, y) && BlockOf(t, At(t, y)) == BlockOf(s, At(s, y))
    {
      assert At(s, y) != c;
    }
  }

  lemma RefAdded(s: Fs, owner: map<nat, Slot>, free: seq<bool>, g: Geometry, ino: nat, i: nat, j: nat, b: nat)
    requires Sane(s, owner, free, g) && Spare(owner, free, g, b)
    requires Entry(s.inodes, ino, i) != 0 && At(s, Data(ino, i, j)) == 0 && j < g.units
    ensures var t := SetRef(s, Entry(s.inodes, ino, i), j, b);
      && Sane(t, owner[b := Data(ino, i, j)], free, g) && SameBut(s, t, Data(ino, i, j))
      && forall y :: At(t, y) == if y == Data(ino, i, j) then b else At(s, y)
  {
    var c := Entry(s.inodes, ino, i);
    var t := SetRef(s, c, j, b);
    RefTyped(s, g, c, j, b);
    RefChanged(s, owner, ino, i, j, b, g.units);
    Gained(s, t, owner, Data(ino, i, j), b);
    RefSame(s, owner, ino, i, j, b);
    hide Owned, Typed, At, SameBut;
  }

  lemma RefDropped(s: Fs, owner: map<nat, Slot>, free: seq<bool>, g: Geometry, ino: nat, i: nat, j: nat)
    requires Sane(s, owner, free, g) && Entry(s.inodes, ino, i) != 0 && At(s, Data(ino, i, j)) != 0
    ensures var b, t := At(s, Data(ino, i, j)), SetRef(s, Entry(s.inodes, ino, i), j, 0);
      && b in owner && g.low <= b < g.high && !free[b]
      && Sane(t, owner - {b}, free[b := true], g) && SameBut(s, t, Data(ino, i, j))
      && forall y :: At(t, y) == if y == Data(ino, i, j) then 0 else At(s, y)
  {
    var c := Entry(s.inodes, ino, i);
    var t := SetRef(s, c, j, 0);
    RefTyped(s, g, c, j, 0);
    RefChanged(s, owner, ino, i, j, 0, g.units);
    Lost(s, t, owner, Data(ino, i, j));
    RefSame(s, owner, ino, i, j, 0);
    assert At(s, Data(ino, i, j)) in owner;
    hide Owned, Typed, At, SameBut;
  }

  lemma EntryDropped(s: Fs, owner: map<nat, Slot>, free: seq<bool>, g: Geometry, ino: nat, i: nat)
    requires Sane(s, owner, free, g) && ino in s.inodes && i < g.first && Entry(s.inodes, ino, i) != 0
    requires forall j :: At(s, Data(ino, i, j)) == 0
    ensures var b, t := Entry(s.inodes, ino, i), SetEntry(s, ino, i, 0);
      && b in owner && g.low <= b < g.high && !free[b] && Sane(t, owner - {b}, free[b := true], g)
      && forall y :: At(t, y) == if y == Second(ino, i) then 0 else At(s, y)
  {
    var b, t := Entry(s.inodes, ino, i), SetEntry(s, ino, i, 0);
    EntryLost(s, ino, i);
    assert At(s, Second(ino, i)) == b;
    Lost(s, t, owner, Second(ino, i));
    assert b in owner;
    EntryZeroTyped(s, g, ino, i);
    hide Owned, Typed, At;
  }

  lemma EntryZeroTyped(s: Fs, g: Geometry, ino: nat, i: nat)
    requires Typed(s, g.first, g.units)
    ensures Typed(SetEntry(s, ino, i, 0), g.first, g.units)
  {
    var t := SetEntry(s, ino, i, 0);
    assert forall ino', i' :: Entry(t.inodes, ino', i') != 0 ==> Entry(t.inodes, ino', i') == Entry(s.inodes, ino', i');
  }

  /** Writing the bytes of a data block. */
  lemma BytesPut(s: Fs, owner: map<nat, Slot>, free: seq<bool>, g: Geometry, x: Slot, bytes: seq<Byte>)
    requires Sane(s, owner, free, g) && x.Data? && At(s, x) != 0
    ensures var t := SetBlock(s, At(s, x), Bytes(bytes));
      && Sane(t, owner, free, g) && SameBut(s, t, x) && (forall y :: At(t, y) == At(s, y))
      && BlockOf(t, At(t, x)) == Bytes(bytes)
  {
    var b := At(s, x);
    var t := SetBlock(s, b, Bytes(bytes));
    assert b in owner && owner[b] == x;
    BytesKept(s, owner, b, bytes);
    Kept(s, t, owner);
    SetBlockSame(s, owner, b, Bytes(bytes), x);
    BytesTyped(s, owner, g, b, bytes);
    hide Owned, Typed, At, SameBut;
  }

  lemma BytesTyped(s: Fs, owner: map<nat, Slot>, g: Geometry, b: nat, bytes: seq<Byte>)
    requires Typed(s, g.first, g.units) && Owned(s, owner) && b in owner && !owner[b].Second?
    ensures Typed(SetBlock(s, b, Bytes(bytes)), g.first, g.units)
  {
    forall ino, i | Entry(s.inodes, ino, i) != 0 ensures Entry(s.inodes, ino, i) != b {
      assert At(s, Second(ino, i)) == Entry(s.inodes, ino, i);
    }
  }

  lemma NodeAdded(s: Fs, owner: map<nat, Slot>, free: seq<bool>, g: Geometry, b: nat)
    requires Sane(s, owner, free, g) && Spare(owner, free, g, b)
    ensures var t := s.(inodes := s.inodes[b := Inode(0, seq(g.first, _ => 0))]);
      && b !in s.inodes && Sane(t, owner[b := Node(b)], free, g)
      && (forall y :: At(t, y) == if y == Node(b) then b else At(s, y))
      && forall x: Slot :: SameBut(s, t, x)
  {
    var t := s.(inodes := s.inodes[b := Inode(0, seq(g.first, _ => 0))]);
    assert At(s, Node(b)) == if b in s.inodes then b else 0;
    NodeGained(s, b, g.first);
    Gained(s, t, owner, Node(b), b);
    assert forall ino, i :: Entry(t.inodes, ino, i) == Entry(s.inodes, ino, i);
    hide Owned, At, Entry;
  }

  lemma NodeDropped(s: Fs, owner: map<nat, Slot>, free: seq<bool>, g: Geometry, b: nat)
    requires Sane(s, owner, free, g) && b in s.inodes && forall i :: Entry(s.inodes, b, i) == 0
    ensures var t := s.(inodes := s.inodes - {b});
      && b in owner && g.low <= b < g.high && !free[b] && Sane(t, owner - {b}, free[b := true], g)
      && (forall y :: At(t, y) == if y == Node(b) then 0 else At(s, y))
      && forall x: Slot :: SameBut(s, t, x)
  {
    var t := s.(inodes := s.inodes - {b});
    assert At(s, Node(b)) == b;
    NodeLost(s, b);
    Lost(s, t, owner, Node(b));
    assert b in owner;
    assert forall ino, i :: Entry(t.inodes, ino, i) == Entry(s.inodes, ino, i);
    hide Owned, At, Entry;
  }

  lemma SizeSet(s: Fs, owner: map<nat, Slot>, free: seq<bool>, g: Geometry, ino: nat, size: nat)
    requires Sane(s, owner, free, g)
    ensures Sane(SetSize(s, ino, size), owner, free, g) && forall x: Slot :: SameBut(s, SetSize(s, ino, size), x)
    ensures forall y :: At(SetSize(s, ino, size), y) == At(s, y)
  {
    var t := SetSize(s, ino, size);
    SizeKept(s, ino, size);
    Kept(s, t, owner);
    assert forall ino', i :: Entry(t.inodes, ino', i) == Entry(s.inodes, ino', i);
    hide Owned, At, Entry;
  }
}
