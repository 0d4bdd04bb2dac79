/** Where the blocks of the files of a TFS image are: inode blocks, second-level blocks and data blocks. */
module TfsSlots {
  import opened Octets

  datatype Inode = Inode(size: nat, ib: seq<nat>)

  /** A block holds bytes, or, at the second level, block numbers with 0 for none. */
  datatype Block = Bytes(bytes: seq<Byte>) | Refs(refs: seq<nat>)

  datatype Fs = Fs(inodes: map<nat, Inode>, disk: map<nat, Block>)

  /** A place that may name a block: an inode, an entry of its table, or an entry of a second-level block. */
  datatype Slot = Node(ino: nat) | Second(ino: nat, i: nat) | Data(ino: nat, i: nat, j: nat)

  function Entry(inodes: map<nat, Inode>, ino: nat, i: nat): nat {
    if ino in inodes && i < |inodes[ino].ib| then inodes[ino].ib[i] else 0
  }

  function Ref(disk: map<nat, Block>, b: nat, j: nat): nat {
    if b != 0 && b in disk && disk[b].Refs? && j < |disk[b].refs| then disk[b].refs[j] else 0
  }

  function At(s: Fs, x: Slot): nat {
    match x
    case Node(ino) => if ino in s.inodes then ino else 0
    case Second(ino, i) => Entry(s.inodes, ino, i)
    case Data(ino, i, j) => Ref(s.disk, Entry(s.inodes, ino, i), j)
  }

  /** Every block that is named is named once, by its owner. */
  ghost predicate Owned(s: Fs, owner: map<nat, Slot>) {
    && (forall x :: At(s, x) != 0 ==> At(s, x) in owner && owner[At(s, x)] == x)
    && forall b :: b in owner ==> b != 0 && At(s, owner[b]) == b
  }

  /** Second-level blocks hold block numbers, as many as fit. */
  ghost predicate Typed(s: Fs, first: nat, units: nat) {
    && 0 !in s.inodes && (forall ino :: ino in s.inodes ==> |s.inodes[ino].ib| == first)
    && forall ino, i :: Entry(s.inodes, ino, i) != 0 ==>
         && Entry(s.inodes, ino, i) in s.disk && s.disk[Entry(s.inodes, ino, i)].Refs?
         && |s.disk[Entry(s.inodes, ino, i)].refs| == units
  }

  /** One slot, empty so far, now names a block nobody named. */
  lemma Gained(s: Fs, t: Fs, owner: map<nat, Slot>, x: Slot, b: nat)
    requires Owned(s, owner) && b != 0 && b !in owner && At(s, x) == 0
    requires forall y :: At(t, y) == if y == x then b else At(s, y)
    ensures Owned(t, owner[b := x])
  {
    hide At;
  }

  /** One slot no longer names its block. */
  lemma Lost(s: Fs, t: Fs, owner: map<nat, Slot>, x: Slot)
    requires Owned(s, owner) && At(s, x) != 0
    requires forall y :: At(t, y) == if y == x then 0 else At(s, y)
    ensures Owned(t, owner - {At(s, x)})
  {
    hide At;
  }

  lemma Kept(s: Fs, t: Fs, owner: map<nat, Slot>)
    requires Owned(s, owner) && forall y :: At(t, y) == At(s, y)
    ensures Owned(t, owner)
  {
    hide At;
  }

  /** Two entries that name the same second-level block are the same entry. */
  lemma EntryOnce(s: Fs, owner: map<nat, Slot>, ino: nat, i: nat, ino': nat, i': nat)
    requires Owned(s, owner) && Entry(s.inodes, ino, i) == Entry(s.inodes, ino', i') != 0
    ensures ino == ino' && i == i'
  {
    assert At(s, Second(ino, i)) == At(s, Second(ino', i'));
  }

  // --- the changes

  function SetEntry(s: Fs, ino: nat, i: nat, b: nat): Fs {
    if ino in s.inodes && i < |s.inodes[ino].ib|
    then s.(inodes := s.inodes[ino := s.inodes[ino].(ib := s.inodes[ino].ib[i := b])]) else s
  }

  function SetRef(s: Fs, c: nat, j: nat, b: nat): Fs {
    if c in s.disk && s.disk[c].Refs? && j < |s.disk[c].refs|
    then s.(disk := s.disk[c := Refs(s.disk[c].refs[j := b])]) else s
  }

  function SetBlock(s: Fs, b: nat, block: Block): Fs {
    s.(disk := s.disk[b := block])
  }

  function SetSize(s: Fs, ino: nat, size: nat): Fs {
    if ino in s.inodes then s.(inodes := s.inodes[ino := s.inodes[ino].(size := size)]) else s
  }

  /** A table entry is given a fresh second-level block with nothing in it. */
  lemma EntryGained(s: Fs, owner: map<nat, Slot>, ino: nat, i: nat, b: nat, units: nat)
    requires Owned(s, owner) && ino in s.inodes && i < |s.inodes[ino].ib| && b != 0 && b !in owner
    requires Entry(s.inodes, ino, i) == 0
    ensures var t := SetEntry(SetBlock(s, b, Refs(seq(units, _ => 0))), ino, i, b);
      forall y :: At(t, y) == if y == Second(ino, i) then b else At(s, y)
  {
    var t := SetEntry(SetBlock(s, b, Refs(seq(units, _ => 0))), ino, i, b);
    forall y ensures At(t, y) == if y == Second(ino, i) then b else At(s, y) {
      if y.Data? && !(y.ino == ino && y.i == i) {
        var e := Entry(s.inodes, y.ino, y.i);
        assert Entry(t.inodes, y.ino, y.i) == e;
        assert e != 0 ==> At(s, Second(y.ino, y.i)) == e && e != b;
      }
    }
  }

  /** An entry of a second-level block changes, and nothing else does. */
  lemma RefChanged(s: Fs, owner: map<nat, Slot>, ino: nat, i: nat, j: nat, b: nat, units: nat)
    requires Owned(s, owner) && Entry(s.inodes, ino, i) != 0 && j < units
    requires var c := Entry(s.inodes, ino, i); c in s.disk && s.disk[c].Refs? && |s.disk[c].refs| == units
    ensures var t := SetRef(s, Entry(s.inodes, ino, i), j, b);
      forall y :: At(t, y) == if y == Data(ino, i, j) then b else At(s, y)
  {
    var c := Entry(s.inodes, ino, i);
    var t := SetRef(s, c, j, b);
    forall y ensures At(t, y) == if y == Data(ino, i, j) then b else At(s, y) {
      if y.Data? && Entry(s.inodes, y.ino, y.i) == c {
        EntryOnce(s, owner, ino, i, y.ino, y.i);
      }
    }
    hide Owned;
  }

  /** A table entry gives up a second-level block in which nothing is left. */
  lemma EntryLost(s: Fs, ino: nat, i: nat)
    requires ino in s.inodes && i < |s.inodes[ino].ib|
    requires forall j :: At(s, Data(ino, i, j)) == 0
    ensures forall y :: At(SetEntry(s, ino, i, 0), y) == if y == Second(ino, i) then 0 else At(s, y)
  {
    var t := SetEntry(s, ino, i, 0);
    forall y ensures At(t, y) == if y == Second(ino, i) then 0 else At(s, y) {
      if y.Data? && y.ino == ino && y.i == i {
        assert y == Data(ino, i, y.j);
      }
    }
  }

  /** Writing the bytes of a data block moves nothing. */
  lemma BytesKept(s: Fs, owner: map<nat, Slot>, b: nat, bytes: seq<Byte>)
    requires Owned(s, owner) && (b in owner ==> !owner[b].Second?)
    ensures forall y :: At(SetBlock(s, b, Bytes(bytes)), y) == At(s, y)
  {
    var t := SetBlock(s, b, Bytes(bytes));
    forall y ensures At(t, y) == At(s, y) {
      if y.Data? {
        var e := Entry(s.inodes, y.ino, y.i);
        assert e != 0 ==> At(s, Second(y.ino, y.i)) == e && e != b;
      }
    }
  }

  lemma SizeKept(s: Fs, ino: nat, size: nat)
    ensures forall y :: At(SetSize(s, ino, size), y) == At(s, y)
  {
  }

  /** A fresh inode block becomes an inode with nothing in it. */
  lemma NodeGained(s: Fs, b: nat, first: nat)
    requires b !in s.inodes
    ensures var t := s.(inodes := s.inodes[b := Inode(0, seq(first, _ => 0))]);
      forall y :: At(t, y) == if y == Node(b) then b else At(s, y)
  {
  }

  lemma NodeLost(s: Fs, b: nat)
    requires b in s.inodes && forall i :: Entry(s.inodes, b, i) == 0
    ensures forall y :: At(s.(inodes := s.inodes - {b}), y) == if y == Node(b) then 0 else At(s, y)
  {
    var t := s.(inodes := s.inodes - {b});
    forall y ensures At(t, y) == if y == Node(b) then 0 else At(s, y) {
      if (y.Data? || y.Second?) && y.ino == b {
        assert Entry(s.inodes, b, y.i) == 0;
      }
    }
  }
}
