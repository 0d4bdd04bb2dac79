/** The write-back block cache: a fixed set of buffers on three lists, found through a
    table, with pinning, dirty marks and eviction. */
module BlockCache {
  import opened Lists
  import opened Wrappers

  const BLOCK_SIZE := 512

  type Block = seq<int>

  /** Blocks are told apart by the channel of their device and their number. */
  datatype Key = Key(channel: int, block: nat)

  datatype Entry = Entry(key: Key, dirty: bool, locks: nat, buf: Block)

  function Zeros(): Block {
    seq(BLOCK_SIZE, _ => 0)
  }

  /** What a device holds; blocks never written read as zeros. */
  function On(disk: map<Key, Block>, k: Key): Block {
    if k in disk then disk[k] else Zeros()
  }

  lemma PushFacts(s: seq<nat>, x: nat)
    requires NoDup(s) && x !in s
    ensures NoDup([x] + s) && forall y :: y in [x] + s <==> y == x || y in s
  {
    assert ([x] + s)[1..] == s;
  }

  /** Every buffer is on exactly one list, once. */
  ghost predicate OnOneList(n: nat, free: seq<nat>, lru: seq<nat>, locked: seq<nat>) {
    && NoDup(free) && NoDup(lru) && NoDup(locked)
    && forall i: nat :: && (i < n <==> i in free || i in lru || i in locked)
                        && !(i in free && i in lru) && !(i in free && i in locked) && !(i in lru && i in locked)
  }

  /** to is the list from with i in front, once it has been taken off. */
  ghost predicate Gained(from: seq<nat>, to: seq<nat>, i: nat) {
    && NoDup(to) && to == [i] + Remove(from, i)
    && forall y :: y in to <==> y == i || y in from
  }

  ghost predicate Lost(from: seq<nat>, to: seq<nat>, i: nat) {
    && NoDup(to) && to == Remove(from, i)
    && forall y :: y in to <==> y in from && y != i
  }

  lemma LoseGain(s: seq<nat>, i: nat)
    requires NoDup(s)
    ensures Lost(s, Remove(s, i), i) && Gained(s, [i] + Remove(s, i), i)
  {
    RemoveFacts(s, i);
    PushFacts(Remove(s, i), i);
  }

  /** Moving a buffer to the head of a list takes it off its old list and moves nothing else. */
  lemma StillOne(n: nat, a: seq<nat>, b: seq<nat>, c: seq<nat>, a': seq<nat>, b': seq<nat>, c': seq<nat>, i: nat)
    requires OnOneList(n, a, b, c) && i < n
    requires Gained(a, a', i) && Lost(b, b', i) && Lost(c, c', i)
    ensures OnOneList(n, a', b', c')
  {
    hide NoDup, Remove;
  }

  lemma Rotate(n: nat, a: seq<nat>, b: seq<nat>, c: seq<nat>)
    requires OnOneList(n, a, b, c)
    ensures OnOneList(n, b, c, a)
  {
    hide NoDup;
  }

  lemma ListOf(n: nat, free: seq<nat>, lru: seq<nat>, locked: seq<nat>, i: nat)
    requires OnOneList(n, free, lru, locked)
    ensures i < n <==> i in free || i in lru || i in locked
    ensures !(i in free && i in lru) && !(i in free && i in locked) && !(i in lru && i in locked)
  {
  }

  /** No buffer is free, and the one to evict cannot be written back. */
  predicate NoRoom(entries: seq<Entry>, free: seq<nat>, lru: seq<nat>, writable: Key -> bool) {
    free == [] &&
    (lru == [] || (lru[0] < |entries| && entries[lru[0]].dirty && !writable(entries[lru[0]].key)))
  }

  /** The table once there is room: without the block released last, if no buffer was free. */
  function Evicted(table: map<Key, nat>, entries: seq<Entry>, free: seq<nat>, lru: seq<nat>): map<Key, nat> {
    if free == [] && lru != [] && lru[0] < |entries| then table - {entries[lru[0]].key} else table
  }

  /** Every changed buffer on the list, of one device or of any, can be written back. */
  predicate Writable(entries: seq<Entry>, list: seq<nat>, channel: Option<int>, writable: Key -> bool) {
    forall n :: 0 <= n < |list| && list[n] < |entries| ==> !Stuck(entries[list[n]], channel, writable)
  }

  /** A changed buffer that cannot be written back. */
  predicate Stuck(e: Entry, channel: Option<int>, writable: Key -> bool) {
    e.dirty && (channel.None? || e.key.channel == channel.value) && !writable(e.key)
  }

  /** Buffers changed only in that marks went, and where one went no change is left to mark. */
  ghost predicate Cleaned(a: seq<Entry>, b: seq<Entry>, touched: set<nat>) {
    && |a| == |b|
    && (forall j :: 0 <= j < |a| ==> b[j] == a[j].(dirty := b[j].dirty) && (b[j].dirty ==> a[j].dirty))
    && forall j :: 0 <= j < |a| && !b[j].dirty && a[j].dirty ==> j !in touched
  }

  /** Only buffers on the list changed. */
  ghost predicate Only(a: seq<Entry>, b: seq<Entry>, list: seq<nat>)
    requires |a| == |b|
  {
    forall j: nat :: j < |a| && j !in list ==> b[j] == a[j]
  }

  /** Only unpinned blocks of the device are given up, and only on unmounting; their buffers are free then. */
  ghost predicate GivenUp(table: map<Key, nat>, table': map<Key, nat>, free: seq<nat>, free': seq<nat>,
                          locked: seq<nat>, channel: int, unmount: bool) {
    && (!unmount ==> table' == table) && (forall i :: i in free ==> i in free')
    && (forall k :: k in table' ==> k in table && table'[k] == table[k])
    && forall k :: k in table && k !in table' ==> k.channel == channel && table[k] in free' && table[k] !in locked
  }

  lemma GivenUpTrans(t0: map<Key, nat>, t1: map<Key, nat>, t2: map<Key, nat>, f0: seq<nat>, f1: seq<nat>, f2: seq<nat>,
                     locked: seq<nat>, channel: int, unmount: bool)
    requires GivenUp(t0, t1, f0, f1, locked, channel, unmount) && GivenUp(t1, t2, f1, f2, locked, channel, unmount)
    ensures GivenUp(t0, t2, f0, f2, locked, channel, unmount)
  {
  }

  class Cache {
    const entries: array<Entry>
    var free: seq<nat>
    var lru: seq<nat>
    var locked: seq<nat>
    var table: map<Key, nat>
    var disk: map<Key, Block>
    /** Pinned buffers whose change is not marked yet. */
    ghost var touched: set<nat>

    ghost predicate Linked()
      reads this
    {
      OnOneList(entries.Length, free, lru, locked)
    }

    /** The table holds exactly the buffers in use, each under its own key. */
    ghost predicate Indexed()
      reads this, entries
    {
      && (forall k :: k in table ==> table[k] < entries.Length && entries[table[k]].key == k && table[k] !in free)
      && forall i: nat :: i < entries.Length && i !in free ==> entries[i].key in table && table[entries[i].key] == i
    }

    ghost predicate Pinned()
      reads this, entries
    {
      && (forall i: nat :: i < entries.Length ==> (i in locked <==> entries[i].locks > 0))
      && forall i :: i in touched ==> i in locked
    }

    /** A clean buffer that nobody has changed agrees with the device. */
    ghost predicate Coherent()
      reads this, entries
    {
      forall i: nat :: i < entries.Length && i !in free && !entries[i].dirty && i !in touched ==>
        entries[i].buf == On(disk, entries[i].key)
    }

    ghost predicate Valid()
      reads this, entries
    {
      Linked() && Indexed() && Pinned() && Coherent()
    }

    /** What a reader of a block must see: the buffer if there is one, else the device. */
    ghost function View(k: Key): Block
      reads this, entries
      requires Valid()
    {
      if k in table then entries[table[k]].buf else On(disk, k)
    }

    constructor (size: nat, device: map<Key, Block>)
      ensures Valid() && fresh(entries) && entries.Length == size && disk == device && table == map[]
      ensures locked == [] && forall k :: View(k) == On(device, k)
    {
      entries := new Entry[size](_ => Entry(Key(0, 0), false, 0, Zeros()));
      free, lru, locked, table, touched, disk := [], [], [], map[], {}, device;
      new;
      for i := 0 to size
        invariant NoDup(free) && lru == locked == [] && touched == {} && table == map[] && disk == device
        invariant forall j: nat :: j in free <==> j < i
        invariant forall j :: 0 <= j < size ==> entries[j].locks == 0
      {
        AppendFacts(free, i);
        free := free + [i];
      }
    }

    /** Takes a buffer off whichever list it is on. */
    method Unlink(i: nat)
      modifies this`free, this`lru, this`locked
      ensures free == Remove(old(free), i) && lru == Remove(old(lru), i) && locked == Remove(old(locked), i)
    {
      free, lru, locked := Remove(free, i), Remove(lru, i), Remove(locked, i);
    }

    /** Puts a buffer at the head of the free list. */
    method ToFree(i: nat)
      requires Linked() && i < entries.Length
      modifies this`free, this`lru, this`locked
      ensures Linked()
      ensures Gained(old(free), free, i)
      ensures Lost(old(lru), lru, i)
      ensures Lost(old(locked), locked, i)
    {
      LoseGain(free, i);
      LoseGain(lru, i);
      LoseGain(locked, i);
      ghost var f, l, p := free, lru, locked;
      Unlink(i);
      free := [i] + free;
      StillOne(entries.Length, f, l, p, free, lru, locked, i);
    }

    /** Puts a buffer at the head of the list of unpinned blocks. */
    method ToLru(i: nat)
      requires Linked() && i < entries.Length
      modifies this`free, this`lru, this`locked
      ensures Linked()
      ensures Lost(old(free), free, i)
      ensures Gained(old(lru), lru, i)
      ensures Lost(old(locked), locked, i)
    {
      LoseGain(free, i);
      LoseGain(lru, i);
      LoseGain(locked, i);
      ghost var f, l, p := free, lru, locked;
      Unlink(i);
      lru := [i] + lru;
      Rotate(entries.Length, f, l, p);
      StillOne(entries.Length, l, p, f, lru, locked, free, i);
      Rotate(entries.Length, lru, locked, free);
      Rotate(entries.Length, locked, free, lru);
    }

    /** Puts a buffer at the head of the list of pinned blocks. */
    method ToLocked(i: nat)
      requires Linked() && i < entries.Length
      modifies this`free, this`lru, this`locked
      ensures Linked()
      ensures Lost(old(free), free, i)
      ensures Lost(old(lru), lru, i)
      ensures Gained(old(locked), locked, i)
    {
      LoseGain(free, i);
      LoseGain(lru, i);
      LoseGain(locked, i);
      ghost var f, l, p := free, lru, locked;
      Unlink(i);
      locked := [i] + locked;
      Rotate(entries.Length, f, l, p);
      Rotate(entries.Length, l, p, f);
      StillOne(entries.Length, p, f, l, locked, free, lru, i);
      Rotate(entries.Length, locked, free, lru);
    }

    /** Gives up the buffer of a block. */
    method Dispose(i: nat)
      requires Valid() && i < entries.Length && i !in free && i !in locked
      modifies this`free, this`lru, this`locked, this`table
      ensures Valid() && table == old(table) - {entries[i].key} && touched == old(touched)
      ensures Gained(old(free), free, i) && Lost(old(lru), lru, i) && locked == old(locked)
      ensures forall k :: View(k) == if k == entries[i].key then On(disk, k) else old(View(k))
    {
      hide OnOneList, Remove, On, NoDup;
      ghost var was := locked;
      ToFree(i);
      LostNothing(was, locked, i);
      table := table - {entries[i].key};
    }

    /** Makes sure some buffer is free, writing back and evicting the head of the second
        list if it must. */
    method MakeRoom(writable: Key -> bool) returns (ok: bool)
      requires Valid()
      modifies this`free, this`lru, this`locked, this`table, this`disk
      ensures Valid() && touched == old(touched) && locked == old(locked)
      ensures ok <==> !NoRoom(entries[..], old(free), old(lru), writable)
      ensures ok ==> free != [] && table.Keys <= old(table).Keys
      ensures table == if ok then Evicted(old(table), entries[..], old(free), old(lru)) else old(table)
      ensures forall k :: View(k) == old(View(k))
      ensures forall k :: On(disk, k) == old(On(disk, k)) || On(disk, k) == old(View(k))
    {
      if free != [] {
        return true;
      }
      if lru == [] {
        return false;
      }
      var i := lru[0];
      ListOf(entries.Length, free, lru, locked, i);
      hide OnOneList, Remove, NoDup;
      if entries[i].dirty {
        if !writable(entries[i].key) {
          return false;
        }
        disk := disk[entries[i].key := entries[i].buf];
      }
      assert View(entries[i].key) == On(disk, entries[i].key);
      Dispose(i);
      ok := true;
    }

    /** Puts a fresh block into a free buffer. */
    method Fill(k: Key, contents: Block) returns (i: nat)
      requires Valid() && free != [] && k !in table
      modifies this`free, this`lru, this`locked, this`table, this`touched, entries
      ensures Valid() && i in locked && k in table && table == old(table)[k := i]
      ensures entries[i] == Entry(k, false, 1, contents)
      ensures touched == if contents == On(disk, k) then old(touched) else old(touched) + {i}
      ensures forall j :: 0 <= j < entries.Length && j != i ==> entries[j] == old(entries[j])
      ensures i in old(free) && forall j :: j in old(locked) ==> j in locked
    {
      i := free[0];
      ListOf(entries.Length, free, lru, locked, i);
      hide OnOneList, Remove, On, NoDup;
      SetFree(i, Entry(k, false, 0, contents));
      Install(i);
    }

    method SetFree(i: nat, e: Entry)
      requires Valid() && i in free && i < entries.Length && e.locks == entries[i].locks
      modifies entries
      ensures Valid() && entries[i] == e
      ensures forall j :: 0 <= j < entries.Length && j != i ==> entries[j] == old(entries[j])
    {
      hide OnOneList, Remove, On, NoDup;
      entries[i] := e;
    }

    method Install(i: nat)
      requires Valid() && i in free && i < entries.Length && i !in touched
      requires entries[i].key !in table && entries[i].locks == 0 && !entries[i].dirty
      modifies this`free, this`lru, this`locked, this`table, this`touched, entries
      ensures Valid() && i in locked && table == old(table)[entries[i].key := i]
      ensures entries[i] == old(entries[i]).(locks := 1)
      ensures touched == if entries[i].buf == On(disk, entries[i].key) then old(touched) else old(touched) + {i}
      ensures forall j :: 0 <= j < entries.Length && j != i ==> entries[j] == old(entries[j])
      ensures forall j :: j in old(locked) ==> j in locked
    {
      hide OnOneList, Remove, On, NoDup;
      table := table[entries[i].key := i];
      ToLocked(i);
      entries[i] := entries[i].(locks := 1);
      touched := if entries[i].buf == On(disk, entries[i].key) then touched else touched + {i};
      assert Linked() && Indexed();
      assert Pinned();
    }

    /** Pins a buffer once more. */
    method Pin(i: nat)
      requires Valid() && i < entries.Length && i !in free
      modifies this`free, this`lru, this`locked, entries
      ensures Valid() && i in locked
      ensures entries[i] == old(entries[i]).(locks := old(entries[i]).locks + 1)
      ensures forall j :: 0 <= j < entries.Length && j != i ==> entries[j] == old(entries[j])
      ensures forall k :: View(k) == old(View(k))
      ensures forall j :: j in old(locked) ==> j in locked
    {
      hide OnOneList, Remove, On, NoDup;
      entries[i] := entries[i].(locks := entries[i].locks + 1);
      ToLocked(i);
    }

    /** Reads a block that has no buffer into one. */
    method ReadIn(k: Key, readable: bool, writable: Key -> bool) returns (h: Option<nat>)
      requires Valid() && k !in table
      modifies this, entries
      ensures Valid() && touched == old(touched)
      ensures h.None? <==> !readable || NoRoom(old(entries[..]), old(free), old(lru), writable)
      ensures table ==
        if NoRoom(old(entries[..]), old(free), old(lru), writable) then old(table)
        else
          var t := Evicted(old(table), old(entries[..]), old(free), old(lru));
          if h.Some? then t[k := h.value] else t
      ensures h.Some? ==> h.value < entries.Length && h.value in locked && h.value !in old(locked)
      ensures h.Some? ==> entries[h.value] == Entry(k, false, 1, old(View(k))) && old(entries[h.value]).locks == 0
      ensures forall j :: 0 <= j < entries.Length && h != Some(j) ==> entries[j] == old(entries[j])
      ensures forall j :: j in old(locked) ==> j in locked
      ensures forall j :: View(j) == old(View(j))
      ensures forall j :: On(disk, j) == old(On(disk, j)) || On(disk, j) == old(View(j))
    {
      hide NoRoom, Evicted;
      var ok := MakeRoom(writable);
      if !ok || !readable {
        return None;
      }
      FreeUnpinned();
      hide OnOneList, Remove, On, NoDup;
      var i := Fill(k, On(disk, k));
      return Some(i);
    }

    /** Pins the buffer of a block, reading the block in on a miss.  Whatever is evicted for
        it, no block's contents change, and no other pinned buffer does. */
    method Get(k: Key, readable: bool, writable: Key -> bool) returns (h: Option<nat>)
      requires Valid()
      modifies this, entries
      ensures Valid() && touched == old(touched)
      ensures h.Some? ==> h.value < entries.Length && h.value in locked && k in table && table[k] == h.value
      ensures h.Some? ==> entries[h.value].buf == old(View(k)) && entries[h.value].key == k
      ensures h.Some? ==> entries[h.value].locks == old(entries[h.value]).locks + 1
      ensures h.Some? && (k in old(table) || h.value in old(locked)) ==>
        entries[h.value] == old(entries[h.value]).(locks := entries[h.value].locks)
      ensures h.Some? && k !in old(table) ==> entries[h.value] == Entry(k, false, 1, old(View(k)))
      ensures h.None? <==> k !in old(table) && (!readable || NoRoom(old(entries[..]), old(free), old(lru), writable))
      ensures table ==
        if k in old(table) || NoRoom(old(entries[..]), old(free), old(lru), writable) then old(table)
        else
          var t := Evicted(old(table), old(entries[..]), old(free), old(lru));
          if h.Some? then t[k := h.value] else t
      ensures forall j :: 0 <= j < entries.Length && h != Some(j) ==> entries[j] == old(entries[j])
      ensures forall j :: j in old(locked) ==> j in locked
      ensures forall j :: View(j) == old(View(j))
      ensures forall j :: On(disk, j) == old(On(disk, j)) || On(disk, j) == old(View(j))
    {
      hide OnOneList, Remove, On, NoDup, NoRoom, Evicted;
      if k !in table {
        hide Valid, View;
        h := ReadIn(k, readable, writable);
      } else {
        Pin(table[k]);
        h := Some(table[k]);
      }
    }

    /** Takes a cleared buffer for a block that has none. */
    method Admit(k: Key, writable: Key -> bool) returns (h: Option<nat>)
      requires Valid() && k !in table
      modifies this, entries
      ensures Valid()
      ensures h.None? <==> NoRoom(old(entries[..]), old(free), old(lru), writable)
      ensures table == if h.None? then old(table)
                       else Evicted(old(table), old(entries[..]), old(free), old(lru))[k := h.value]
      ensures h.Some? ==> h.value < entries.Length && h.value in locked && h.value !in old(locked)
      ensures h.Some? ==> entries[h.value] == Entry(k, false, 1, Zeros()) && old(entries[h.value]).locks == 0
      ensures old(touched) <= touched && forall j :: j in touched && j !in old(touched) ==> h == Some(j)
      ensures h.None? ==> touched == old(touched)
      ensures forall j :: 0 <= j < entries.Length && h != Some(j) ==> entries[j] == old(entries[j])
      ensures forall j :: j in old(locked) ==> j in locked
      ensures forall j :: View(j) == if h.Some? && j == k then Zeros() else old(View(j))
      ensures forall j :: On(disk, j) == old(On(disk, j)) || On(disk, j) == old(View(j))
    {
      hide NoRoom, Evicted, Zeros;
      var ok := MakeRoom(writable);
      if !ok {
        return None;
      }
      FreeUnpinned();
      hide OnOneList, Remove, On, NoDup;
      var i := Fill(k, Zeros());
      return Some(i);
    }

    lemma FreeUnpinned()
      requires Valid()
      ensures forall i :: i in free ==> i < entries.Length && i !in locked && entries[i].locks == 0
    {
    }

    /** Pins the buffer of a block without reading the block, cleared. */
    method Create(k: Key, writable: Key -> bool) returns (h: Option<nat>)
      requires Valid()
      modifies this, entries
      ensures Valid()
      ensures h.Some? ==> h.value < entries.Length && h.value in locked && k in table && table[k] == h.value
      ensures h.Some? ==> entries[h.value].buf == Zeros() && entries[h.value].key == k
      ensures h.Some? ==> entries[h.value].locks == old(entries[h.value]).locks + 1
      ensures h.Some? && (k in old(table) || h.value in old(locked)) ==>
        entries[h.value] == old(entries[h.value]).(locks := entries[h.value].locks, buf := Zeros())
      ensures h.Some? && k !in old(table) ==> entries[h.value] == Entry(k, false, 1, Zeros())
      ensures old(touched) <= touched && forall j :: j in touched && j !in old(touched) ==> h == Some(j)
      ensures h.None? <==> k !in old(table) && NoRoom(old(entries[..]), old(free), old(lru), writable)
      ensures h.None? ==> touched == old(touched)
      ensures table == if k in old(table) || h.None? then old(table)
                       else Evicted(old(table), old(entries[..]), old(free), old(lru))[k := h.value]
      ensures forall j :: 0 <= j < entries.Length && h != Some(j) ==> entries[j] == old(entries[j])
      ensures forall j :: j in old(locked) ==> j in locked
      ensures forall j :: View(j) == if h.Some? && j == k then Zeros() else old(View(j))
      ensures forall j :: On(disk, j) == old(On(disk, j)) || On(disk, j) == old(View(j))
    {
      hide OnOneList, Remove, On, NoDup, NoRoom, Evicted, Zeros;
      if k !in table {
        hide Valid, View;
        h := Admit(k, writable);
      } else {
        var i := table[k];
        Pin(i);
        Write(i, Zeros());
        h := Some(i);
      }
    }

    /** The client of a pinned buffer changes it. */
    method Write(i: nat, contents: Block)
      requires Valid() && i in locked && i < entries.Length
      modifies this`touched, entries
      ensures Valid() && touched == old(touched) + {i}
      ensures entries[i] == old(entries[i]).(buf := contents)
      ensures forall j :: 0 <= j < entries.Length && j != i ==> entries[j] == old(entries[j])
      ensures forall k :: View(k) == if k == entries[i].key then contents else old(View(k))
    {
      ListOf(entries.Length, free, lru, locked, i);
      hide OnOneList, Remove, On, NoDup;
      entries[i] := entries[i].(buf := contents);
      touched := touched + {i};
    }

    /** Marks a buffer as changed; one that is free is of no consequence. */
    method Modify(i: nat)
      requires Valid() && i < entries.Length
      modifies this`touched, entries
      ensures Valid() && touched == old(touched) - {i}
      ensures entries[i] == old(entries[i]).(dirty := true)
      ensures forall j :: 0 <= j < entries.Length && j != i ==> entries[j] == old(entries[j])
      ensures forall k :: View(k) == old(View(k))
    {
      hide OnOneList, Remove, On, NoDup;
      entries[i] := entries[i].(dirty := true);
      touched := touched - {i};
    }

    /** Gives a pin back, if there is one.  A change must be marked before the last pin goes. */
    method Release(i: nat, dirty: bool)
      requires Valid() && i < entries.Length
      requires i in touched && entries[i].locks == 1 ==> dirty || entries[i].dirty
      modifies this`free, this`lru, this`locked, this`touched, entries
      ensures Valid() && touched <= old(touched) && forall j :: j in old(touched) && j != i ==> j in touched
      ensures entries[i].locks == (if old(entries[i]).locks > 0 then old(entries[i]).locks - 1 else 0)
      ensures entries[i] == old(entries[i]).(dirty := old(entries[i]).dirty || dirty, locks := entries[i].locks)
      ensures old(entries[i]).locks == 1 ==> i in lru && lru[0] == i
      ensures forall j :: 0 <= j < entries.Length && j != i ==> entries[j] == old(entries[j])
      ensures forall j :: j in old(locked) && j != i ==> j in locked
      ensures forall k :: View(k) == old(View(k))
    {
      hide OnOneList, Remove, On, NoDup;
      if dirty {
        Modify(i);
      }
      if entries[i].locks > 0 {
        if entries[i].dirty {
          touched := touched - {i};
        }
        Unpin(i);
      }
    }

    method Unpin(i: nat)
      requires Valid() && i < entries.Length && entries[i].locks > 0
      requires i in touched ==> entries[i].locks > 1
      modifies this`free, this`lru, this`locked, entries
      ensures Valid()
      ensures entries[i] == old(entries[i]).(locks := old(entries[i]).locks - 1)
      ensures entries[i].locks == 0 ==> i in lru && lru[0] == i
      ensures forall j :: 0 <= j < entries.Length && j != i ==> entries[j] == old(entries[j])
      ensures forall j :: j in old(locked) && j != i ==> j in locked
      ensures forall k :: View(k) == old(View(k))
    {
      ListOf(entries.Length, free, lru, locked, i);
      hide OnOneList, Remove, On, NoDup;
      if entries[i].locks == 1 {
        UnpinLast(i);
      } else {
        entries[i] := entries[i].(locks := entries[i].locks - 1);
      }
    }

    method UnpinLast(i: nat)
      requires Valid() && i < entries.Length && i in locked && i !in free && entries[i].locks == 1 && i !in touched
      modifies this`free, this`lru, this`locked, entries
      ensures Valid()
      ensures entries[i] == old(entries[i]).(locks := 0) && i in lru && lru[0] == i
      ensures forall j :: 0 <= j < entries.Length && j != i ==> entries[j] == old(entries[j])
      ensures forall j :: j in old(locked) && j != i ==> j in locked
      ensures forall k :: View(k) == old(View(k))
    {
      hide OnOneList, Remove, On, NoDup;
      ToLru(i);
      entries[i] := entries[i].(locks := 0);
      assert Linked() && Indexed();
    }

    /** Drops what is cached of a block that nobody has pinned. */
    method Invalidate(k: Key) returns (found: bool)
      requires Valid() && (k in table ==> table[k] !in locked)
      modifies this`free, this`lru, this`locked, this`table
      ensures Valid() && k !in table && found == (k in old(table)) && touched == old(touched) && locked == old(locked)
      ensures forall j :: View(j) == if j == k then On(disk, j) else old(View(j))
    {
      if k !in table {
        return false;
      }
      Dispose(table[k]);
      found := true;
    }

    /** Writes a buffer back. */
    method Sweep(i: nat)
      requires Valid() && i < entries.Length && i !in free
      modifies this`disk, this`touched, entries
      ensures Valid() && touched == old(touched) - {i}
      ensures entries[..] == old(entries[..])[i := old(entries[i]).(dirty := false)]
      ensures forall k :: View(k) == old(View(k))
      ensures forall k :: On(disk, k) == old(On(disk, k)) || On(disk, k) == old(View(k))
    {
      hide OnOneList, Remove, NoDup;
      disk := disk[entries[i].key := entries[i].buf];
      entries[i] := entries[i].(dirty := false);
      touched := touched - {i};
    }

    /** Nothing of the channel is left to write among the first p unpinned buffers, or nothing at all on unmounting. */
    ghost predicate Swept(channel: int, unmount: bool, p: nat)
      reads this, entries
    {
      && p <= |lru|
      && forall q :: 0 <= q < p ==>
           && lru[q] < entries.Length
           && (entries[lru[q]].key.channel == channel ==> !unmount && !entries[lru[q]].dirty)
    }

    /** Writes back the unpinned buffers of one device, giving them up on unmounting. */
    method FlushUnpinned(channel: int, unmount: bool, writable: Key -> bool) returns (ok: bool)
      requires Valid()
      modifies this`free, this`lru, this`locked, this`table, this`disk, this`touched, entries
      ensures Valid() && touched <= old(touched) && locked == old(locked)
      ensures ok ==> Swept(channel, unmount, |lru|)
      ensures ok <==> Writable(old(entries[..]), old(lru), Some(channel), writable)
      ensures GivenUp(old(table), table, old(free), free, locked, channel, unmount)
      ensures Cleaned(old(entries[..]), entries[..], touched) && Only(old(entries[..]), entries[..], old(lru))
      ensures forall k :: View(k) == old(View(k))
      ensures forall k :: On(disk, k) == old(On(disk, k)) || On(disk, k) == old(View(k))
    {
      hide OnOneList, Remove, On, NoDup, GivenUp, Writable, Cleaned, Only;
      var p: nat := 0;
      ghost var a, l, n := entries[..], lru, 0;
      SeparateLists(entries.Length, free, lru, locked);
      FlushStart(a, touched, table, free, locked, channel, unmount, writable);
      assert l[..0] == [];
      while p < |lru|
        invariant Valid() && touched <= old(touched) && locked == old(locked) && Swept(channel, unmount, p)
        invariant n <= |l| && lru[p..] == l[n..] && |entries[..]| == |a|
        invariant Writable(a, l[..n], Some(channel), writable) && Only(a, entries[..], l[..n])
        invariant GivenUp(old(table), table, old(free), free, locked, channel, unmount)
        invariant Cleaned(a, entries[..], touched)
        invariant forall k :: View(k) == old(View(k))
        invariant forall k :: On(disk, k) == old(On(disk, k)) || On(disk, k) == old(View(k))
        decreases |lru| - p
      {
        ghost var b, t, tb, fb := entries[..], touched, table, free;
        NextOf(a, b, l, n, lru, p);
        var done, q := FlushOne(p, channel, unmount, writable);
        FlushNext(a, b, entries[..], l, n, t, touched, Some(channel), writable);
        GivenUpTrans(old(table), tb, table, old(free), fb, free, locked, channel, unmount);
        if !done {
          return false;
        }
        p, n := q, n + 1;
      }
      assert l[..n] == l;
      ok := true;
    }

    /** Writes back the buffer at one place of the list, unless it is of another device; gives the place to go on at. */
    method FlushOne(p: nat, channel: int, unmount: bool, writable: Key -> bool) returns (ok: bool, q: nat)
      requires Valid() && Swept(channel, unmount, p) && p < |lru|
      modifies this`free, this`lru, this`locked, this`table, this`disk, this`touched, entries
      ensures Valid() && touched <= old(touched) && locked == old(locked) && old(lru)[p] < entries.Length
      ensures ok <==> !Stuck(old(entries[lru[p]]), Some(channel), writable)
      ensures ok ==> Swept(channel, unmount, q) && lru[q..] == old(lru)[p + 1..]
      ensures GivenUp(old(table), table, old(free), free, locked, channel, unmount)
      ensures Cleaned(old(entries[..]), entries[..], touched) && Only(old(entries[..]), entries[..], [old(lru)[p]])
      ensures forall k :: View(k) == old(View(k))
      ensures forall k :: On(disk, k) == old(On(disk, k)) || On(disk, k) == old(View(k))
    {
      hide OnOneList, Remove, On, NoDup, GivenUp, Cleaned, Only;
      var i := lru[p];
      ListOf(entries.Length, free, lru, locked, i);
      GivenUpNone(table, free, locked, channel, unmount);
      CleanedOne(entries[..], i, touched);
      ok, q := true, p + 1;
      if entries[i].key.channel == channel {
        if entries[i].dirty {
          if !writable(entries[i].key) {
            return false, p;
          }
          Sweep(i);
        }
        if unmount {
          q := p;
          Discard(i, p, channel);
        }
      }
    }

    /** Gives up a clean buffer in the middle of the list. */
    method Discard(i: nat, p: nat, channel: int)
      requires Valid() && p < |lru| && lru[p] == i && i < entries.Length && !entries[i].dirty
      requires i !in free && i !in locked && Swept(channel, true, p) && entries[i].key.channel == channel
      modifies this`free, this`lru, this`locked, this`table
      ensures Valid() && touched == old(touched) && locked == old(locked)
      ensures Swept(channel, true, p) && lru[p..] == old(lru)[p + 1..]
      ensures GivenUp(old(table), table, old(free), free, locked, channel, true)
      ensures forall k :: View(k) == old(View(k))
    {
      assert i !in touched;
      assert View(entries[i].key) == On(disk, entries[i].key);
      RemoveAt(lru, p);
      ghost var was := lru;
      hide OnOneList, Remove, On, NoDup, GivenUp;
      Dispose(i);
      DisposedGivenUp(old(table), entries[i].key, i, old(free), free, locked, channel);
      assert lru == was[..p] + was[p + 1..];
      assert forall q :: 0 <= q < p ==> lru[q] == was[q];
    }

    /** Writes back what is changed, pinned or not; the device then agrees with every block nobody is in the middle of
        changing.  It fails exactly if one of them cannot be written.  After unmounting, only pinned blocks of the
        device are left. */
    method Flush(channel: int, unmount: bool, writable: Key -> bool) returns (ok: bool)
      requires Valid()
      modifies this`free, this`lru, this`locked, this`table, this`disk, this`touched, entries
      ensures Valid() && touched <= old(touched) && locked == old(locked)
      ensures ok <==> Writable(old(entries[..]), old(lru), Some(channel), writable)
                      && Writable(old(entries[..]), locked, None, writable)
      ensures GivenUp(old(table), table, old(free), free, locked, channel, unmount)
      ensures ok && unmount ==> forall k :: k in table && k.channel == channel ==> table[k] in locked
      ensures forall k :: View(k) == old(View(k))
      ensures forall k :: On(disk, k) == old(On(disk, k)) || On(disk, k) == old(View(k))
      ensures Cleaned(old(entries[..]), entries[..], touched)
      ensures ok ==> forall k: Key :: k.channel == channel && (k in table ==> table[k] !in touched) ==>
        On(disk, k) == View(k)
      ensures ok ==> forall i :: i in locked ==> i < entries.Length && !entries[i].dirty
    {
      hide OnOneList, Remove, On, NoDup, GivenUp, Writable, Cleaned, Only, Swept;
      ghost var a := entries[..];
      SeparateLists(entries.Length, free, lru, locked);
      ok := FlushUnpinned(channel, unmount, writable);
      if !ok {
        return;
      }
      ghost var b, t := entries[..], touched;
      SameWritable(a, b, old(lru), locked, writable);
      ok := FlushPinned(channel, unmount, writable);
      CleanedTrans(a, b, entries[..], t, touched);
      if ok {
        AllClean(channel, unmount);
      }
    }

    /** Writes back the pinned buffers, of whatever device. */
    method FlushPinned(channel: int, unmount: bool, writable: Key -> bool) returns (ok: bool)
      requires Valid() && Swept(channel, unmount, |lru|)
      modifies this`disk, this`touched, entries
      ensures Valid() && touched <= old(touched) && Swept(channel, unmount, |lru|)
      ensures ok <==> Writable(old(entries[..]), locked, None, writable)
      ensures ok ==> Spotless(entries[..], locked)
      ensures Cleaned(old(entries[..]), entries[..], touched)
      ensures forall k :: View(k) == old(View(k))
      ensures forall k :: On(disk, k) == old(On(disk, k)) || On(disk, k) == old(View(k))
    {
      hide OnOneList, Remove, On, NoDup, Writable, Cleaned, Only, Swept, Spotless;
      ghost var a, l := entries[..], locked;
      SeparateLists(entries.Length, free, lru, locked);
      FlushStart(a, touched, table, free, locked, channel, unmount, writable);
      assert l[..0] == [];
      for p := 0 to |locked|
        invariant Valid() && touched <= old(touched) && Swept(channel, unmount, |lru|) && |entries[..]| == |a|
        invariant Writable(a, l[..p], None, writable) && Only(a, entries[..], l[..p])
        invariant Spotless(entries[..], l[..p]) && Cleaned(a, entries[..], touched)
        invariant forall k :: View(k) == old(View(k))
        invariant forall k :: On(disk, k) == old(On(disk, k)) || On(disk, k) == old(View(k))
      {
        ghost var b, t := entries[..], touched;
        NextOf(a, b, l, p, locked, p);
        var done := SweepIf(locked[p], channel, unmount, writable);
        FlushNext(a, b, entries[..], l, p, t, touched, None, writable);
        if !done {
          return false;
        }
        SpotlessNext(b, entries[..], l, p, touched);
      }
      assert l[..|l|] == l;
      ok := true;
    }

    /** Writes a pinned buffer back if it is changed. */
    method SweepIf(i: nat, ghost channel: int, ghost unmount: bool, writable: Key -> bool) returns (ok: bool)
      requires Valid() && i in locked && Swept(channel, unmount, |lru|)
      modifies this`disk, this`touched, entries
      ensures Valid() && touched <= old(touched) && Swept(channel, unmount, |lru|) && i < entries.Length
      ensures ok <==> !Stuck(old(entries[i]), None, writable)
      ensures ok ==> !entries[i].dirty
      ensures Cleaned(old(entries[..]), entries[..], touched) && Only(old(entries[..]), entries[..], [i])
      ensures forall k :: View(k) == old(View(k))
      ensures forall k :: On(disk, k) == old(On(disk, k)) || On(disk, k) == old(View(k))
    {
      ListOf(entries.Length, free, lru, locked, i);
      OffLru(i);
      hide OnOneList, Remove, On, NoDup, Cleaned, Only;
      CleanedOne(entries[..], i, touched);
      ok := true;
      if entries[i].dirty {
        if !writable(entries[i].key) {
          return false;
        }
        Sweep(i);
      }
    }

    lemma OffLru(i: nat)
      requires Linked() && i in locked
      ensures forall q :: 0 <= q < |lru| ==> lru[q] != i
    {
      ListOf(entries.Length, free, lru, locked, i);
    }

    lemma AllClean(channel: int, unmount: bool)
      requires Valid() && Swept(channel, unmount, |lru|)
      requires Spotless(entries[..], locked)
      ensures forall i :: i in locked ==> i < entries.Length && !entries[i].dirty
      ensures forall k: Key :: k.channel == channel && (k in table ==> table[k] !in touched) ==> On(disk, k) == View(k)
      ensures unmount ==> forall k :: k in table && k.channel == channel ==> table[k] in locked
    {
      forall i | i in locked ensures i < entries.Length && !entries[i].dirty {
        ListOf(entries.Length, free, lru, locked, i);
        var q :| 0 <= q < |locked| && locked[q] == i;
      }
      hide OnOneList, Spotless, Remove, NoDup, On;
      forall k: Key | k in table && k.channel == channel
        ensures (table[k] !in touched ==> On(disk, k) == View(k)) && (unmount ==> table[k] in locked)
      {
        var i := table[k];
        ListOf(entries.Length, free, lru, locked, i);
        if i in lru {
          var q :| 0 <= q < |lru| && lru[q] == i;
        }
      }
    }
  }

  // --- going through a list

  lemma FlushStart(a: seq<Entry>, touched: set<nat>, table: map<Key, nat>, free: seq<nat>, locked: seq<nat>,
                   channel: int, unmount: bool, writable: Key -> bool)
    ensures Writable(a, [], Some(channel), writable) && Writable(a, [], None, writable)
    ensures Only(a, a, []) && Spotless(a, []) && Cleaned(a, a, touched)
    ensures GivenUp(table, table, free, free, locked, channel, unmount)
  {
  }

  lemma DisposedGivenUp(table: map<Key, nat>, k: Key, i: nat, free: seq<nat>, free': seq<nat>, locked: seq<nat>,
                        channel: int)
    requires k in table && table[k] == i && k.channel == channel && Gained(free, free', i) && i !in locked
    ensures GivenUp(table, table - {k}, free, free', locked, channel, true)
  {
    hide NoDup, Remove;
  }

  lemma GivenUpNone(table: map<Key, nat>, free: seq<nat>, locked: seq<nat>, channel: int, unmount: bool)
    ensures GivenUp(table, table, free, free, locked, channel, unmount)
  {
  }

  lemma {:induction false} NotBefore(l: seq<nat>, n: nat)
    requires NoDup(l) && n < |l|
    ensures l[n] !in l[..n]
  {
    if n > 0 {
      NotBefore(l[1..], n - 1);
      assert l[..n] == [l[0]] + l[1..][..n - 1];
      assert l[1..][n - 1] in l[1..];
    }
  }

  /** The next buffer on the list is as it was at first. */
  lemma NextOf(a: seq<Entry>, b: seq<Entry>, l: seq<nat>, n: nat, lru: seq<nat>, p: nat)
    requires NoDup(l) && n <= |l| && p < |lru| && lru[p..] == l[n..] && |a| == |b| && Only(a, b, l[..n])
    ensures n < |l| && l[n] == lru[p] && (l[n] < |a| ==> b[l[n]] == a[l[n]]) && lru[p + 1..] == l[n + 1..]
  {
    assert lru[p] == lru[p..][0] && l[n] == l[n..][0];
    assert lru[p + 1..] == lru[p..][1..] && l[n + 1..] == l[n..][1..];
    NotBefore(l, n);
  }

  /** The buffers of the list are unchanged or written back. */
  ghost predicate Spotless(entries: seq<Entry>, list: seq<nat>) {
    forall q :: 0 <= q < |list| && list[q] < |entries| ==> !entries[list[q]].dirty
  }

  lemma SpotlessNext(b: seq<Entry>, c: seq<Entry>, l: seq<nat>, n: nat, t: set<nat>)
    requires n < |l| && Cleaned(b, c, t) && Spotless(b, l[..n]) && l[n] < |c| && !c[l[n]].dirty
    ensures Spotless(c, l[..n + 1])
  {
    forall q | 0 <= q < n + 1 && l[q] < |c| ensures !c[l[q]].dirty {
      assert q < n ==> l[..n][q] == l[q];
    }
  }

  /** One buffer further. */
  lemma FlushNext(a: seq<Entry>, b: seq<Entry>, c: seq<Entry>, l: seq<nat>, n: nat, t: set<nat>, t': set<nat>,
                  channel: Option<int>, writable: Key -> bool)
    requires n < |l| && l[n] < |a| == |b| == |c| && b[l[n]] == a[l[n]] && t' <= t
    requires Only(a, b, l[..n]) && Only(b, c, [l[n]]) && Cleaned(a, b, t) && Cleaned(b, c, t')
    requires Writable(a, l[..n], channel, writable)
    ensures Only(a, c, l[..n + 1]) && Only(a, c, l) && Cleaned(a, c, t')
    ensures !Stuck(b[l[n]], channel, writable) ==> Writable(a, l[..n + 1], channel, writable)
    ensures Stuck(b[l[n]], channel, writable) ==> !Writable(a, l, channel, writable)
  {
    assert l[..n + 1] == l[..n] + [l[n]];
    CleanedTrans(a, b, c, t, t');
    hide Cleaned;
    assert forall j :: j in l[..n] ==> j in l[..n + 1];
    assert l[n] in l[..n + 1] && forall j :: j in l[..n + 1] ==> j in l;
    forall m | 0 <= m < n + 1 ensures l[..n + 1][m] == if m < n then l[..n][m] else l[n] {
    }
  }

  lemma CleanedOne(a: seq<Entry>, i: nat, t: set<nat>)
    requires i < |a|
    ensures var b := a[i := a[i].(dirty := false)]; Cleaned(a, b, t - {i}) && Only(a, b, [i])
    ensures Cleaned(a, a, t) && Only(a, a, [i])
  {
  }

  lemma CleanedTrans(a: seq<Entry>, b: seq<Entry>, c: seq<Entry>, t: set<nat>, t': set<nat>)
    requires Cleaned(a, b, t) && Cleaned(b, c, t') && t' <= t
    ensures Cleaned(a, c, t')
  {
  }

  lemma SeparateLists(n: nat, free: seq<nat>, lru: seq<nat>, locked: seq<nat>)
    requires OnOneList(n, free, lru, locked)
    ensures NoDup(lru) && NoDup(locked) && forall i :: i in locked ==> i !in lru
  {
    hide NoDup;
  }

  /** The pinned buffers are as they were before the others were written back. */
  lemma SameWritable(a: seq<Entry>, b: seq<Entry>, lru: seq<nat>, locked: seq<nat>, writable: Key -> bool)
    requires |a| == |b| && Only(a, b, lru) && forall i :: i in locked ==> i !in lru
    ensures Writable(a, locked, None, writable) <==> Writable(b, locked, None, writable)
  {
    forall m | 0 <= m < |locked| && locked[m] < |a| ensures a[locked[m]] == b[locked[m]] {
      assert locked[m] in locked;
    }
  }

  lemma LostNothing(from: seq<nat>, to: seq<nat>, i: nat)
    requires Lost(from, to, i) && i !in from
    ensures to == from
  {
    RemoveAbsent(from, i);
  }

  lemma {:induction false} RemoveAt(s: seq<nat>, p: nat)
    requires NoDup(s) && p < |s|
    ensures Remove(s, s[p]) == s[..p] + s[p + 1..]
  {
    if p == 0 {
      assert s[..0] + s[1..] == s[1..];
    } else {
      SkipFirst(s, p);
      RemoveAt(s[1..], p - 1);
      hide Remove, NoDup;
      SliceFirst(s, p);
    }
  }

  lemma SkipFirst(s: seq<nat>, p: nat)
    requires NoDup(s) && 0 < p < |s|
    ensures NoDup(s[1..]) && s[1..][p - 1] == s[p]
    ensures Remove(s, s[p]) == [s[0]] + Remove(s[1..], s[p])
  {
    assert s[1..][p - 1] in s[1..];
  }

  lemma SliceFirst(s: seq<nat>, p: nat)
    requires 0 < p < |s|
    ensures [s[0]] + (s[1..][..p - 1] + s[1..][p..]) == s[..p] + s[p + 1..]
  {
  }

  // --- whole runs

  /** What clients may do.  A handle is the number of the buffer that pinning a block gave. */
  datatype Call =
    | Gets(k: Key) | Creates(k: Key) | Writes(h: nat, data: Block) | Modifies(h: nat)
    | Releases(h: nat, dirty: bool) | Invalidates(k: Key) | Flushes(channel: int, unmount: bool)

  /** A call, whether it went through, and the handle it gave. */
  datatype Event = Event(call: Call, ok: bool, handle: nat)

  /** A call and how the transfers it causes turn out. */
  datatype Step = Step(call: Call, readable: bool, writable: Key -> bool)

  function Last<T>(log: seq<T>): T
    requires log != []
  {
    log[|log| - 1]
  }

  function Before<T>(log: seq<T>): (r: seq<T>)
    requires log != []
    ensures |r| == |log| - 1
  {
    log[..|log| - 1]
  }

  /** The event gave a handle to the buffer. */
  predicate Gives(e: Event, h: nat) {
    (e.call.Gets? || e.call.Creates?) && e.ok && e.handle == h
  }

  predicate Marks(e: Event, h: nat) {
    (e.call.Modifies? && e.call.h == h) || (e.call.Releases? && e.call.h == h && e.call.dirty)
  }

  predicate Changes(e: Event, h: nat) {
    (e.call.Writes? && e.call.h == h) || (e.call.Creates? && Gives(e, h))
  }

  /** How often a buffer has been pinned and not yet released. */
  function Pins(log: seq<Event>, h: nat): nat {
    if log == [] then 0
    else
      var e, n := Last(log), Pins(Before(log), h);
      if Gives(e, h) then n + 1 else if e.call.Releases? && e.call.h == h && n > 0 then n - 1 else n
  }

  /** The block a handle was last given for. */
  function KeyAt(log: seq<Event>, h: nat): Option<Key> {
    if log == [] then None
    else if Gives(Last(log), h) then Some(Last(log).call.k)
    else KeyAt(Before(log), h)
  }

  /** The buffer was marked as changed since it was pinned and since the last flush. */
  predicate Noted(log: seq<Event>, h: nat) {
    log != [] &&
    var e := Last(log);
    if e.call.Flushes? || (Gives(e, h) && Pins(Before(log), h) == 0) then false
    else if Marks(e, h) then true
    else Noted(Before(log), h)
  }

  /** The buffer was changed, and the change is not marked. */
  predicate Unmarked(log: seq<Event>, h: nat) {
    log != [] &&
    var e := Last(log);
    if Changes(e, h) then !Noted(log, h)
    else if Marks(e, h) then false
    else Unmarked(Before(log), h)
  }

  /** What is asked of clients of n buffers: write to pinned buffers only, mark changes before
      the last pin goes, and invalidate no pinned block. */
  predicate Proper(log: seq<Event>, n: nat, call: Call) {
    match call
    case Writes(h, _) => h < n && Pins(log, h) > 0
    case Modifies(h) => h < n
    case Releases(h, dirty) => h < n && (Pins(log, h) == 1 && Unmarked(log, h) ==> dirty)
    case Invalidates(k) => forall h :: 0 <= h < n && Pins(log, h) > 0 ==> KeyAt(log, h) != Some(k)
    case _ => true
  }

  /**
    The contents a plain store without a cache would have after the same calls:
    the last given to the block.  Invalidating a block drops what was only
    cached of it: the contents it had after backs[i] calls come back, where i is
    the number of the call.
   */
  ghost function Plain(start: Key -> Block, log: seq<Event>, backs: seq<nat>, k: Key): Block
    requires |backs| == |log|
    decreases |log|
  {
    if log == [] then start(k)
    else
      var e, back := Last(log), Last(backs);
      if e.call.Creates? && e.ok && e.call.k == k then Zeros()
      else if e.call.Writes? && KeyAt(Before(log), e.call.h) == Some(k) then e.call.data
      else if e.call.Invalidates? && e.call.k == k && back < |log| then Plain(start, log[..back], backs[..back], k)
      else Plain(start, Before(log), Before(backs), k)
  }

  /** No pinned buffer of the block has a change that is not marked. */
  ghost predicate Settled(log: seq<Event>, k: Key) {
    forall h :: Pins(log, h) > 0 && KeyAt(log, h) == Some(k) ==> !Unmarked(log, h)
  }

  /** How many calls had been made when the block was last known to be on the device. */
  ghost function Synced(log: seq<Event>, k: Key): (n: nat)
    ensures n <= |log|
  {
    if log == [] then 0
    else
      var e := Last(log);
      if e.call.Flushes? && e.ok && e.call.channel == k.channel && Settled(Before(log), k) then |log|
      else Synced(Before(log), k)
  }

  /** The contents are those of the block after some number of calls, not before it was last flushed. */
  ghost predicate Stored(start: Key -> Block, log: seq<Event>, backs: seq<nat>, k: Key, b: Block)
    requires |backs| == |log|
  {
    exists j: nat :: StoredAt(start, log, backs, k, b, j)
  }

  ghost predicate StoredAt(start: Key -> Block, log: seq<Event>, backs: seq<nat>, k: Key, b: Block, j: nat)
    requires |backs| == |log|
  {
    Synced(log, k) <= j <= |log| && Plain(start, log[..j], backs[..j], k) == b
  }

  /** The pins of the buffers are those of the log. */
  ghost predicate Pinning(log: seq<Event>, entries: seq<Entry>) {
    && (forall h: nat :: h < |entries| ==> Pins(log, h) == entries[h].locks)
    && forall h: nat :: h >= |entries| ==> Pins(log, h) == 0
  }

  ghost predicate Keyed(log: seq<Event>, entries: seq<Entry>) {
    forall h: nat :: h < |entries| && entries[h].locks > 0 ==> KeyAt(log, h) == Some(entries[h].key)
  }

  ghost predicate Marking(log: seq<Event>, entries: seq<Entry>, touched: set<nat>) {
    forall h: nat :: h < |entries| && entries[h].locks > 0 ==>
      && (Noted(log, h) ==> entries[h].dirty)
      && (h in touched && !entries[h].dirty ==> Unmarked(log, h))
  }

  ghost predicate Device(start: Key -> Block, log: seq<Event>, backs: seq<nat>, disk: map<Key, Block>)
    requires |backs| == |log|
  {
    forall k :: Stored(start, log, backs, k, On(disk, k))
  }

  lemma LogLast<T>(log: seq<T>, e: T)
    ensures log + [e] != [] && Last(log + [e]) == e && Before(log + [e]) == log
  {
  }

  /** Pins, keys and marks after one more event. */
  lemma Logged(log: seq<Event>, e: Event, h: nat)
    ensures Pins(log + [e], h) == (if Gives(e, h) then Pins(log, h) + 1
                                   else if e.call.Releases? && e.call.h == h && Pins(log, h) > 0 then Pins(log, h) - 1
                                   else Pins(log, h))
    ensures KeyAt(log + [e], h) == if Gives(e, h) then Some(e.call.k) else KeyAt(log, h)
    ensures Noted(log + [e], h) == (if e.call.Flushes? || (Gives(e, h) && Pins(log, h) == 0) then false
                                    else if Marks(e, h) then true else Noted(log, h))
    ensures Unmarked(log + [e], h) == (if Changes(e, h) then !Noted(log + [e], h)
                                       else if Marks(e, h) then false else Unmarked(log, h))
  {
    LogLast(log, e);
  }

  lemma PlainNext(start: Key -> Block, log: seq<Event>, backs: seq<nat>, e: Event, back: nat, k: Key)
    requires |backs| == |log|
    ensures Plain(start, log + [e], backs + [back], k) ==
            if e.call.Creates? && e.ok && e.call.k == k then Zeros()
            else if e.call.Writes? && KeyAt(log, e.call.h) == Some(k) then e.call.data
            else if e.call.Invalidates? && e.call.k == k
              && back <= |log| then Plain(start, log[..back], backs[..back], k)
            else Plain(start, log, backs, k)
  {
    LogLast(log, e);
    LogLast(backs, back);
    if back <= |log| {
      assert (log + [e])[..back] == log[..back] && (backs + [back])[..back] == backs[..back];
    }
  }

  /** What the device held, or the present contents, are stored after one more call too. */
  lemma StoredNext(start: Key -> Block, log: seq<Event>, backs: seq<nat>, e: Event, back: nat, k: Key, was: Block,
                   b: Block)
    requires |backs| == |log| && Stored(start, log, backs, k, was)
    requires b == was || b == Plain(start, log, backs, k)
    requires Synced(log + [e], k) == Synced(log, k)
    ensures Stored(start, log + [e], backs + [back], k, b)
  {
    var j: nat :| StoredAt(start, log, backs, k, was, j);
    var i := if b == was then j else |log|;
    assert log[..|log|] == log && backs[..|backs|] == backs;
    assert (log + [e])[..i] == log[..i] && (backs + [back])[..i] == backs[..i];
    assert StoredAt(start, log + [e], backs + [back], k, b, i);
  }

  lemma SyncedNext(log: seq<Event>, e: Event, k: Key)
    ensures Synced(log + [e], k) ==
            if e.call.Flushes? && e.ok && e.call.channel == k.channel
              && Settled(log, k) then |log| + 1 else Synced(log, k)
  {
    LogLast(log, e);
  }

  /** What was stored stays so unless the event is a flush that went through. */
  lemma DeviceNext(start: Key -> Block, log: seq<Event>, backs: seq<nat>, e: Event, back: nat, disk: map<Key, Block>,
                   disk': map<Key, Block>)
    requires |backs| == |log| && Device(start, log, backs, disk)
    requires forall k :: On(disk', k) == On(disk, k) || On(disk', k) == Plain(start, log, backs, k)
    requires e.call.Flushes? && e.ok ==> forall k: Key :: k.channel == e.call.channel && Settled(log, k) ==>
      On(disk', k) == Plain(start, log, backs, k)
    ensures Device(start, log + [e], backs + [back], disk')
  {
    hide On, Plain;
    forall k ensures Stored(start, log + [e], backs + [back], k, On(disk', k)) {
      SyncedNext(log, e, k);
      if e.call.Flushes? && e.ok && e.call.channel == k.channel && Settled(log, k) {
        PlainNext(start, log, backs, e, back, k);
        assert (log + [e])[..|log| + 1] == log + [e] && (backs + [back])[..|log| + 1] == backs + [back];
        assert StoredAt(start, log + [e], backs + [back], k, On(disk', k), |log| + 1);
      } else {
        StoredNext(start, log, backs, e, back, k, On(disk, k), On(disk', k));
      }
    }
  }

  /** The cache shows what the plain store holds, and buffers and device are as the calls made them. */
  ghost predicate Abides(c: Cache, start: Key -> Block, log: seq<Event>, backs: seq<nat>)
    reads c, c.entries
  {
    && c.Valid() && |backs| == |log|
    && Pinning(log, c.entries[..]) && Keyed(log, c.entries[..]) && Marking(log, c.entries[..], c.touched)
    && Device(start, log, backs, c.disk)
    && forall k :: c.View(k) == Plain(start, log, backs, k)
  }

  /** A buffer was pinned, by `Gets` or `Creates`; the others are as before. */
  lemma PinnedNext(log: seq<Event>, e: Event, a: seq<Entry>, b: seq<Entry>, ta: set<nat>, tb: set<nat>)
    requires Pinning(log, a) && Keyed(log, a) && Marking(log, a, ta) && |a| == |b|
    requires (e.call.Gets? || e.call.Creates?) && (e.ok ==> e.handle < |a|)
    requires e.ok ==> b[e.handle].key == e.call.k && b[e.handle].locks == a[e.handle].locks + 1
    requires e.ok && a[e.handle].locks > 0 ==> b[e.handle].dirty == a[e.handle].dirty
    requires forall j :: 0 <= j < |a| && !(e.ok && e.handle == j) ==> b[j] == a[j]
    requires forall j :: j in tb && !(e.call.Creates? && e.ok && e.handle == j) ==> j in ta
    requires e.ok && e.call.Gets? && e.handle in tb ==> a[e.handle].locks > 0
    ensures Pinning(log + [e], b) && Keyed(log + [e], b) && Marking(log + [e], b, tb)
  {
    forall h: nat { Logged(log, e, h); }
    hide Pins, KeyAt, Noted, Unmarked;
  }

  /** Nothing but the contents and marks of one pinned buffer, or of none, changed. */
  lemma ChangedNext(log: seq<Event>, e: Event, a: seq<Entry>, b: seq<Entry>, ta: set<nat>, tb: set<nat>)
    requires Pinning(log, a) && Keyed(log, a) && Marking(log, a, ta) && |a| == |b|
    requires e.call.Writes? || e.call.Modifies?
    requires e.call.h < |a| && forall j :: 0 <= j < |a| && j != e.call.h ==> b[j] == a[j]
    requires var i := e.call.h; b[i] == if e.call.Writes? then a[i].(buf := e.call.data) else a[i].(dirty := true)
    requires tb == if e.call.Writes? then ta + {e.call.h} else ta - {e.call.h}
    ensures Pinning(log + [e], b) && Keyed(log + [e], b) && Marking(log + [e], b, tb)
  {
    forall h: nat { Logged(log, e, h); }
    hide Pins, KeyAt, Noted, Unmarked;
  }

  lemma ReleasedNext(log: seq<Event>, e: Event, a: seq<Entry>, b: seq<Entry>, ta: set<nat>, tb: set<nat>)
    requires Pinning(log, a) && Keyed(log, a) && Marking(log, a, ta) && |a| == |b|
    requires e.call.Releases? && e.call.h < |a| && tb <= ta
    requires forall j :: 0 <= j < |a| && j != e.call.h ==> b[j] == a[j]
    requires var i := e.call.h; b[i] == a[i].(dirty := a[i].dirty || e.call.dirty,
                                             locks := if a[i].locks > 0 then a[i].locks - 1 else 0)
    ensures Pinning(log + [e], b) && Keyed(log + [e], b) && Marking(log + [e], b, tb)
  {
    forall h: nat { Logged(log, e, h); }
    hide Pins, KeyAt, Noted, Unmarked;
  }

  /** Buffers were at most written back. */
  lemma SweptNext(log: seq<Event>, e: Event, a: seq<Entry>, b: seq<Entry>, ta: set<nat>, tb: set<nat>)
    requires Pinning(log, a) && Keyed(log, a) && Marking(log, a, ta) && |a| == |b|
    requires (e.call.Invalidates? && a == b && ta == tb) || e.call.Flushes?
    requires forall j :: 0 <= j < |a| ==> b[j] == a[j].(dirty := b[j].dirty)
    requires tb <= ta && forall j :: 0 <= j < |a| && !b[j].dirty && a[j].dirty ==> j !in tb
    ensures Pinning(log + [e], b) && Keyed(log + [e], b) && Marking(log + [e], b, tb)
  {
    forall h: nat { Logged(log, e, h); }
    hide Pins, KeyAt, Noted, Unmarked;
  }

  method DoGet(c: Cache, step: Step, ghost start: Key -> Block, ghost log: seq<Event>, ghost backs: seq<nat>)
    returns (e: Event)
    requires Abides(c, start, log, backs) && step.call.Gets?
    modifies c, c.entries
    ensures e.call == step.call && Abides(c, start, log + [e], backs + [0])
    ensures e.ok ==> e.handle < c.entries.Length && c.entries[e.handle].key == step.call.k
    ensures e.ok ==> c.entries[e.handle].buf == Plain(start, log, backs, step.call.k)
  {
    hide Cache.Valid, Cache.View, Pinning, Keyed, Marking, Device, Plain;
    ghost var a, ta, disk := c.entries[..], c.touched, c.disk;
    PinsTouched(c);
    var h := c.Get(step.call.k, step.readable, step.writable);
    e := Event(step.call, h.Some?, if h.Some? then h.value else 0);
    PinnedNext(log, e, a, c.entries[..], ta, c.touched);
    DeviceNext(start, log, backs, e, 0, disk, c.disk);
    forall k { PlainNext(start, log, backs, e, 0, k); }
  }

  lemma PinsTouched(c: Cache)
    requires c.Valid()
    ensures forall i :: i in c.touched ==> i in c.locked
    ensures forall i: nat :: i < c.entries.Length ==> (i in c.locked <==> c.entries[i].locks > 0)
    ensures forall k :: k in c.table ==> c.table[k] < c.entries.Length && c.entries[c.table[k]].key == k
    ensures forall i :: i in c.locked ==> i < c.entries.Length
  {
    forall i | i in c.locked ensures i < c.entries.Length {
      ListOf(c.entries.Length, c.free, c.lru, c.locked, i);
    }
  }

  method DoCreate(c: Cache, step: Step, ghost start: Key -> Block, ghost log: seq<Event>, ghost backs: seq<nat>)
    returns (e: Event)
    requires Abides(c, start, log, backs) && step.call.Creates?
    modifies c, c.entries
    ensures e.call == step.call && Abides(c, start, log + [e], backs + [0])
    ensures e.ok ==> e.handle < c.entries.Length && c.entries[e.handle].key == step.call.k
    ensures e.ok ==> c.entries[e.handle].buf == Zeros()
  {
    hide Cache.Valid, Cache.View, Pinning, Keyed, Marking, Device, Plain, Zeros;
    ghost var a, ta, disk := c.entries[..], c.touched, c.disk;
    PinsTouched(c);
    var h := c.Create(step.call.k, step.writable);
    e := Event(step.call, h.Some?, if h.Some? then h.value else 0);
    PinnedNext(log, e, a, c.entries[..], ta, c.touched);
    DeviceNext(start, log, backs, e, 0, disk, c.disk);
    forall k { PlainNext(start, log, backs, e, 0, k); }
  }

  method DoWrite(c: Cache, call: Call, ghost start: Key -> Block, ghost log: seq<Event>, ghost backs: seq<nat>)
    returns (e: Event)
    requires Abides(c, start, log, backs) && call.Writes? && Proper(log, c.entries.Length, call)
    modifies c, c.entries
    ensures e.call == call && Abides(c, start, log + [e], backs + [0])
  {
    hide Cache.Valid, Cache.View, Pinning, Keyed, Marking, Device, Plain, Pins, KeyAt;
    ghost var a, ta, disk := c.entries[..], c.touched, c.disk;
    e := Event(call, true, 0);
    PinsTouched(c);
    PinnedHere(log, a, call.h);
    c.Write(call.h, call.data);
    ChangedNext(log, e, a, c.entries[..], ta, c.touched);
    DeviceNext(start, log, backs, e, 0, disk, c.disk);
    forall k { PlainNext(start, log, backs, e, 0, k); }
  }

  lemma PinnedHere(log: seq<Event>, entries: seq<Entry>, h: nat)
    requires Pinning(log, entries) && Keyed(log, entries) && h < |entries|
    ensures entries[h].locks == Pins(log, h) && (entries[h].locks > 0 ==> KeyAt(log, h) == Some(entries[h].key))
  {
  }

  method DoModify(c: Cache, call: Call, ghost start: Key -> Block, ghost log: seq<Event>, ghost backs: seq<nat>)
    returns (e: Event)
    requires Abides(c, start, log, backs) && call.Modifies? && Proper(log, c.entries.Length, call)
    modifies c, c.entries
    ensures e.call == call && Abides(c, start, log + [e], backs + [0])
  {
    hide Cache.Valid, Cache.View, Pinning, Keyed, Marking, Device, Plain;
    ghost var a, ta, disk := c.entries[..], c.touched, c.disk;
    e := Event(call, true, 0);
    c.Modify(call.h);
    ChangedNext(log, e, a, c.entries[..], ta, c.touched);
    DeviceNext(start, log, backs, e, 0, disk, c.disk);
    forall k { PlainNext(start, log, backs, e, 0, k); }
  }

  method DoRelease(c: Cache, call: Call, ghost start: Key -> Block, ghost log: seq<Event>, ghost backs: seq<nat>)
    returns (e: Event)
    requires Abides(c, start, log, backs) && call.Releases? && Proper(log, c.entries.Length, call)
    modifies c, c.entries
    ensures e.call == call && Abides(c, start, log + [e], backs + [0])
  {
    ghost var a, ta, disk := c.entries[..], c.touched, c.disk;
    e := Event(call, true, 0);
    hide Cache.Valid, Cache.View, Device, Plain, Pins, KeyAt, Noted, Unmarked;
    assert a[call.h] == c.entries[call.h];
    c.Release(call.h, call.dirty);
    ReleasedNext(log, e, a, c.entries[..], ta, c.touched);
    hide Pinning, Keyed, Marking;
    DeviceNext(start, log, backs, e, 0, disk, c.disk);
    forall k { PlainNext(start, log, backs, e, 0, k); }
  }

  lemma ComesBack(start: Key -> Block, log: seq<Event>, backs: seq<nat>, disk: map<Key, Block>,
                  k: Key) returns (back: nat)
    requires |backs| == |log| && Device(start, log, backs, disk)
    ensures Synced(log, k) <= back <= |log| && Plain(start, log[..back], backs[..back], k) == On(disk, k)
  {
    assert Stored(start, log, backs, k, On(disk, k));
    back :| StoredAt(start, log, backs, k, On(disk, k), back);
  }

  /** What comes back is what the device holds: contents the block had, no older than its last flush. */
  method DoInvalidate(c: Cache, call: Call, ghost start: Key -> Block, ghost log: seq<Event>, ghost backs: seq<nat>)
    returns (e: Event, ghost back: nat)
    requires Abides(c, start, log, backs) && call.Invalidates? && Proper(log, c.entries.Length, call)
    modifies c, c.entries
    ensures e.call == call && Abides(c, start, log + [e], backs + [back])
    ensures Synced(log, call.k) <= back <= |log|
  {
    hide Cache.Valid, Cache.View, Pinning, Keyed, Marking, Device, Plain, Pins, KeyAt, Noted, Unmarked;
    ghost var a, ta, disk := c.entries[..], c.touched, c.disk;
    PinsTouched(c);
    back := ComesBack(start, log, backs, c.disk, call.k);
    if call.k in c.table {
      PinnedHere(log, a, c.table[call.k]);
    }
    var found := c.Invalidate(call.k);
    e := Event(call, found, 0);
    SweptNext(log, e, a, c.entries[..], ta, c.touched);
    DeviceNext(start, log, backs, e, back, disk, c.disk);
    forall k { PlainNext(start, log, backs, e, back, k); }
  }

  /** Once the flush went through, the device has the contents of every block without an unmarked change. */
  method DoFlush(c: Cache, step: Step, ghost start: Key -> Block, ghost log: seq<Event>, ghost backs: seq<nat>)
    returns (e: Event)
    requires Abides(c, start, log, backs) && step.call.Flushes?
    modifies c, c.entries
    ensures e.call == step.call && Abides(c, start, log + [e], backs + [0])
    ensures e.ok ==> forall k: Key :: k.channel == step.call.channel && Settled(log, k) ==>
      On(c.disk, k) == Plain(start, log, backs, k)
    ensures Remains(log, e, old(c.table), c.table)
  {
    ghost var a, ta, disk, table := c.entries[..], c.touched, c.disk, c.table;
    PinsTouched(c);
    hide Cache.Valid, Cache.View, Pinning, Keyed, Marking, Device, Plain, Remains, GivenUp, Writable;
    var ok := c.Flush(step.call.channel, step.call.unmount, step.writable);
    PinsTouched(c);
    e := Event(step.call, ok, 0);
    RemainsNow(log, e, a, old(c.table), c.table, old(c.free), c.free, c.locked);
    if ok {
      forall k: Key | k.channel == step.call.channel && Settled(log, k)
        && k in c.table ensures c.table[k] !in c.touched {
        SettledClean(log, a, ta, c.table[k], c.entries[..], c.touched, k);
      }
    }
    SweptNext(log, e, a, c.entries[..], ta, c.touched);
    DeviceNext(start, log, backs, e, 0, disk, c.disk);
    forall k { PlainNext(start, log, backs, e, 0, k); }
  }

  lemma RemainsNow(log: seq<Event>, e: Event, entries: seq<Entry>, before: map<Key, nat>, table: map<Key, nat>,
                   free: seq<nat>, free': seq<nat>, locked: seq<nat>)
    requires Pinning(log, entries) && e.call.Flushes?
    requires forall i: nat :: i < |entries| ==> (i in locked <==> entries[i].locks > 0)
    requires forall k :: k in before ==> before[k] < |entries|
    requires GivenUp(before, table, free, free', locked, e.call.channel, e.call.unmount)
    requires e.ok && e.call.unmount ==> forall k :: k in table && k.channel == e.call.channel ==> table[k] in locked
    ensures Remains(log, e, before, table)
  {
    hide Pins;
  }

  lemma SettledClean(log: seq<Event>, a: seq<Entry>, ta: set<nat>, h: nat, b: seq<Entry>, tb: set<nat>, k: Key)
    requires Pinning(log, a) && Keyed(log, a) && Marking(log, a, ta) && Settled(log, k)
    requires |a| == |b| && h < |b| && b[h].key == k && b[h] == a[h].(dirty := b[h].dirty)
    requires tb <= ta && (h in tb ==> b[h].locks > 0 && !b[h].dirty) && (!b[h].dirty && a[h].dirty ==> h !in tb)
    ensures h !in tb
  {
  }

  method Do(c: Cache, step: Step, ghost start: Key -> Block, ghost log: seq<Event>, ghost backs: seq<nat>)
    returns (e: Event, ghost back: nat)
    requires Abides(c, start, log, backs) && Proper(log, c.entries.Length, step.call)
    modifies c, c.entries
    ensures e.call == step.call && Abides(c, start, log + [e], backs + [back])
    ensures Faithful(c, start, log, backs, e, back, old(c.table))
  {
    hide Abides, Plain, Pins;
    back := 0;
    match step.call
    case Gets(_) => e := DoGet(c, step, start, log, backs);
    case Creates(_) => e := DoCreate(c, step, start, log, backs);
    case Releases(_, _) => e := DoRelease(c, step.call, start, log, backs);
    case Invalidates(_) => e, back := DoInvalidate(c, step.call, start, log, backs);
    case Flushes(_, _) => e := DoFlush(c, step, start, log, backs);
    case Modifies(_) => e := DoModify(c, step.call, start, log, backs);
    case Writes(_, _) => e := DoWrite(c, step.call, start, log, backs);
  }

  /** What a flush leaves of the table of blocks: everything, or on unmounting at least what is pinned or of other
      devices.  After unmounting, a block of the device that is still there is pinned, so that a device mounted in its
      place is served none of the old blocks. */
  ghost predicate Remains(log: seq<Event>, e: Event, before: map<Key, nat>, table: map<Key, nat>) {
    e.call.Flushes? ==>
      && (!e.call.unmount ==> table == before)
      && (forall k :: k in table ==> k in before && table[k] == before[k])
      && (forall k :: k in before && (k.channel != e.call.channel || Pins(log, before[k]) > 0) ==> k in table)
      && (e.ok && e.call.unmount ==>
            forall k :: k in table && k.channel == e.call.channel ==> Pins(log, table[k]) > 0)
  }

  /** The device and the table after a call, and the table before it. */
  datatype Snapshot = Snapshot(disk: map<Key, Block>, before: map<Key, nat>, table: map<Key, nat>)

  /** The outcome of a call: a block that is got has the contents last given to it; a flush that
      goes through brings the device up to date; invalidating a block loses nothing that was flushed. */
  ghost predicate Faithful(c: Cache, start: Key -> Block, log: seq<Event>, backs: seq<nat>, e: Event, back: nat,
                           before: map<Key, nat>)
    reads c, c.entries
    requires |backs| == |log|
  {
    && (e.call.Gets? && e.ok ==>
          && e.handle < c.entries.Length && c.entries[e.handle].key == e.call.k
          && c.entries[e.handle].buf == Plain(start, log, backs, e.call.k))
    && (e.call.Creates? && e.ok ==>
          && e.handle < c.entries.Length && c.entries[e.handle].key == e.call.k && c.entries[e.handle].buf == Zeros())
    && (e.call.Flushes? && e.ok ==> forall k: Key :: k.channel == e.call.channel && Settled(log, k) ==>
          On(c.disk, k) == Plain(start, log, backs, k))
    && (e.call.Invalidates? ==> Synced(log, e.call.k) <= back <= |log|)
    && Remains(log, e, before, c.table)
  }

  /** Whoever has a block pinned finds in its buffer the contents last given to the block, by anyone. */
  lemma HandleHolds(c: Cache, start: Key -> Block, log: seq<Event>, backs: seq<nat>, h: nat)
    requires Abides(c, start, log, backs) && Pins(log, h) > 0
    ensures h < c.entries.Length && h in c.locked && KeyAt(log, h) == Some(c.entries[h].key)
    ensures c.entries[h].buf == Plain(start, log, backs, c.entries[h].key)
  {
    PinsTouched(c);
    assert c.entries[..][h] == c.entries[h] && h !in c.free by { ListOf(c.entries.Length, c.free, c.lru, c.locked, h); }
    assert c.View(c.entries[h].key) == c.entries[h].buf;
  }

  /** A cache just initialised. */
  lemma AbidesFirst(c: Cache, start: Key -> Block)
    requires c.Valid() && c.table == map[] && c.locked == [] && forall k :: start(k) == On(c.disk, k)
    ensures Abides(c, start, [], [])
  {
    PinsTouched(c);
    assert forall i :: 0 <= i < c.entries.Length ==> c.entries[..][i].locks == 0;
    forall k ensures Stored(start, [], [], k, On(c.disk, k)) {
      assert StoredAt(start, [], [], k, On(c.disk, k), 0);
    }
  }

  /** The outcome of call i, seen from the end of the run. */
  ghost predicate Outcome(start: Key -> Block, log: seq<Event>, backs: seq<nat>, answers: seq<Block>,
                          states: seq<Snapshot>, i: nat)
    requires i < |log| == |backs| == |answers| == |states|
  {
    var e := log[i];
    && (e.call.Gets? && e.ok ==> answers[i] == Plain(start, log[..i], backs[..i], e.call.k))
    && (e.call.Flushes? && e.ok ==> forall k: Key :: k.channel == e.call.channel && Settled(log[..i], k) ==>
          On(states[i].disk, k) == Plain(start, log[..i], backs[..i], k))
    && (e.call.Invalidates? ==> Synced(log[..i], e.call.k) <= backs[i] <= i)
    && Remains(log[..i], e, states[i].before, states[i].table)
  }

  lemma OutcomeKept(start: Key -> Block, log: seq<Event>, backs: seq<nat>, answers: seq<Block>,
                    states: seq<Snapshot>, e: Event, back: nat, answer: Block, state: Snapshot, i: nat)
    requires i < |log| == |backs| == |answers| == |states| && Outcome(start, log, backs, answers, states, i)
    ensures Outcome(start, log + [e], backs + [back], answers + [answer], states + [state], i)
  {
    hide Plain, Settled, Synced, Remains;
    assert (log + [e])[..i] == log[..i] && (backs + [back])[..i] == backs[..i];
  }

  lemma OutcomeNow(c: Cache, start: Key -> Block, log: seq<Event>, backs: seq<nat>, answers: seq<Block>,
                   states: seq<Snapshot>, e: Event, back: nat, answer: Block, before: map<Key, nat>)
    requires |log| == |backs| == |answers| == |states| && Faithful(c, start, log, backs, e, back, before)
    requires e.call.Gets? && e.ok ==> answer == c.entries[e.handle].buf
    ensures Outcome(start, log + [e], backs + [back], answers + [answer],
                    states + [Snapshot(c.disk, before, c.table)], |log|)
  {
    hide Plain, Settled, Synced, Remains;
    assert (log + [e])[..|log|] == log && (backs + [back])[..|log|] == backs;
  }

  /**
    Any calls by any clients, interleaved as they like, with any transfers
    failing, until a client breaks the rules: every block that is got has the
    contents last given to it, whatever was evicted in between, and every flush
    that goes through makes the device agree.
   */
  method Run(c: Cache, steps: seq<Step>, ghost start: Key -> Block)
    returns (log: seq<Event>, answers: seq<Block>, ghost backs: seq<nat>, ghost states: seq<Snapshot>)
    requires c.Valid() && c.table == map[] && c.locked == [] && forall k :: start(k) == On(c.disk, k)
    modifies c, c.entries
    ensures |log| == |backs| == |answers| == |states| <= |steps|
    ensures forall i :: 0 <= i < |log| ==> log[i].call == steps[i].call
    ensures |log| < |steps| ==> !Proper(log, c.entries.Length, steps[|log|].call)
    ensures forall i :: 0 <= i < |log| ==> Outcome(start, log, backs, answers, states, i)
    ensures Abides(c, start, log, backs)
  {
    AbidesFirst(c, start);
    log, answers, backs, states := [], [], [], [];
    hide Abides, Faithful, Outcome, Proper;
    for n := 0 to |steps|
      invariant |log| == |backs| == |answers| == |states| == n
      invariant forall i :: 0 <= i < n ==> log[i].call == steps[i].call
      invariant forall i :: 0 <= i < n ==> Outcome(start, log, backs, answers, states, i)
      invariant Abides(c, start, log, backs)
    {
      if !Proper(log, c.entries.Length, steps[n].call) {
        return;
      }
      ghost var before := c.table;
      var e, back := Do(c, steps[n], start, log, backs);
      var answer := if e.call.Gets? && e.ok && e.handle < c.entries.Length then c.entries[e.handle].buf else [];
      GotHandle(c, start, log, backs, e, back, before);
      ghost var state := Snapshot(c.disk, before, c.table);
      OutcomeNow(c, start, log, backs, answers, states, e, back, answer, before);
      forall i | 0 <= i < n
        ensures Outcome(start, log + [e], backs + [back], answers + [answer], states + [state], i)
      {
        OutcomeKept(start, log, backs, answers, states, e, back, answer, state, i);
      }
      log, backs, answers, states := log + [e], backs + [back], answers + [answer], states + [state];
    }
  }

  lemma GotHandle(c: Cache, start: Key -> Block, log: seq<Event>, backs: seq<nat>, e: Event, back: nat,
                  before: map<Key, nat>)
    requires |backs| == |log| && Faithful(c, start, log, backs, e, back, before)
    ensures e.call.Gets? && e.ok ==> e.handle < c.entries.Length
  {
  }
}
