/** Two-level page tables: mapping, sharing, copying and unmapping ranges of user pages. */
module PageTables {
  const PER_TABLE := 1024
  /** Directory entries below the supervisor's. */
  const USER_TABLES := 512
  const USER_PAGES := USER_TABLES * PER_TABLE

  /** An entry: nothing, or a present page frame. */
  datatype Pte = Zero | Entry(frame: nat, writable: bool)

  type Page = seq<int>

  /** The entry of a user page: the directory names the table, the table the frame. */
  function Look(dir: seq<Pte>, tables: map<nat, seq<Pte>>, v: nat): Pte {
    var i, j := v / PER_TABLE, v % PER_TABLE;
    if i < |dir| && dir[i].Entry? && dir[i].frame in tables && j < |tables[dir[i].frame]|
    then tables[dir[i].frame][j] else Zero
  }

  /** Tables are whole; none is free, and none is mapped as a page. */
  ghost predicate Apart(free: set<nat>, tables: map<nat, seq<Pte>>) {
    && 0 !in free && 0 !in tables && (forall f :: f in tables ==> f !in free && |tables[f]| == PER_TABLE)
    && forall f, j :: f in tables && 0 <= j < |tables[f]| && tables[f][j].Entry? ==>
         tables[f][j].frame !in tables && tables[f][j].frame != 0
  }

  /** No mapped page is free. */
  ghost predicate Live(free: set<nat>, tables: map<nat, seq<Pte>>) {
    forall f, j :: f in tables && 0 <= j < |tables[f]| && tables[f][j].Entry? ==> tables[f][j].frame !in free
  }

  /** The user entries of a directory name different tables. */
  ghost predicate Proper(dir: seq<Pte>, tables: map<nat, seq<Pte>>) {
    && |dir| == PER_TABLE
    && (forall i :: 0 <= i < USER_TABLES && dir[i].Entry? ==> dir[i].frame in tables)
    && forall i, k :: 0 <= i < USER_TABLES && 0 <= k < USER_TABLES && dir[i].Entry? && dir[k].Entry? &&
                      dir[i].frame == dir[k].frame ==>
         i == k
  }

  function Cleared(t: seq<Pte>, from: nat, to: nat): (r: seq<Pte>)
    requires from <= to <= |t|
    ensures |r| == |t|
  {
    t[..from] + seq(to - from, _ => Zero) + t[to..]
  }

  predicate AllZero(t: seq<Pte>) {
    forall j :: 0 <= j < |t| ==> t[j].Zero?
  }

  /** The frames mapped by a stretch of a table. */
  ghost function Frames(t: seq<Pte>, from: nat, to: nat): set<nat>
    requires from <= to <= |t|
  {
    set j | from <= j < to && t[j].Entry? :: t[j].frame
  }

  method SomePresent(t: seq<Pte>, from: nat, to: nat) returns (found: bool)
    requires from <= to <= |t|
    ensures found <==> exists j :: from <= j < to && t[j].Entry?
  {
    for j := from to to
      invariant forall k :: from <= k < j ==> t[k].Zero?
    {
      if t[j].Entry? {
        return true;
      }
    }
    found := false;
  }

  // --- what clearing part of one table does

  /** The directory, the tables and the free frames. */
  datatype State = State(dir: seq<Pte>, tables: map<nat, seq<Pte>>, free: set<nat>)

  ghost predicate Good(s: State) {
    Proper(s.dir, s.tables) && Apart(s.free, s.tables)
  }

  /** Entries are cleared, their frames freed if asked, and a table left with nothing in it is freed. */
  ghost function TableCleared(s: State, i: nat, from: nat, to: nat, release: bool): State
    requires Good(s) && i < USER_TABLES && s.dir[i].Entry? && from <= to <= PER_TABLE
  {
    var f := s.dir[i].frame;
    var t := Cleared(s.tables[f], from, to);
    var free := s.free + if release then Frames(s.tables[f], from, to) else {};
    if AllZero(t) then State(s.dir[i := Zero], s.tables - {f}, free + {f}) else State(s.dir, s.tables[f := t], free)
  }

  lemma ClearedGood(s: State, i: nat, from: nat, to: nat, release: bool)
    requires Good(s) && i < USER_TABLES && s.dir[i].Entry? && from <= to <= PER_TABLE
    ensures Good(TableCleared(s, i, from, to, release))
  {
    var f := s.dir[i].frame;
    var t := Cleared(s.tables[f], from, to);
    assert forall j :: 0 <= j < |t| ==> t[j] == if from <= j < to then Zero else s.tables[f][j];
    hide Cleared;
  }

  lemma ClearedLook(s: State, i: nat, from: nat, to: nat, release: bool, v: nat)
    requires Good(s) && i < USER_TABLES && s.dir[i].Entry? && from <= to <= PER_TABLE && v < USER_PAGES
    ensures var t := TableCleared(s, i, from, to, release);
      Look(t.dir, t.tables, v) == if i * PER_TABLE + from <= v < i * PER_TABLE + to then Zero
                                  else Look(s.dir, s.tables, v)
  {
    var f := s.dir[i].frame;
    var t := Cleared(s.tables[f], from, to);
    assert forall j :: 0 <= j < |t| ==> t[j] == if from <= j < to then Zero else s.tables[f][j];
    var k := v / PER_TABLE;
    assert v == k * PER_TABLE + v % PER_TABLE;
    hide Cleared;
  }

  // --- what clearing a range does

  /** The frames mapped by a range of pages. */
  function Mapped(s: State, a: nat, b: nat): set<nat> {
    set v | a <= v < b && Look(s.dir, s.tables, v).Entry? :: Look(s.dir, s.tables, v).frame
  }

  /** The tables that directory entries of a range gave up. */
  ghost function Emptied(s: State, t: State, lo: nat, hi: nat): set<nat> {
    set i | lo <= i < hi && i < |s.dir| && i < |t.dir| && s.dir[i].Entry? && t.dir[i].Zero? :: s.dir[i].frame
  }

  ghost predicate HasPage(s: State, i: nat) {
    exists v: nat :: v / PER_TABLE == i && Look(s.dir, s.tables, v).Entry?
  }

  /** Pages `a` up to `b` are gone, and no other translation changed. */
  ghost predicate Gone(s: State, t: State, a: nat, b: nat) {
    forall v: nat :: v < USER_PAGES ==>
      Look(t.dir, t.tables, v) == if a <= v < b then Zero else Look(s.dir, s.tables, v)
  }

  /** Of the directory entries visited, those left with no page gave their tables up; the others are as they were. */
  ghost predicate Pruned(s: State, t: State, lo: nat, hi: nat) {
    && |t.dir| == |s.dir| == PER_TABLE
    && (forall i :: 0 <= i < PER_TABLE && !(lo <= i < hi) ==> t.dir[i] == s.dir[i])
    && forall i :: lo <= i < hi && i < PER_TABLE ==>
      t.dir[i] == if s.dir[i].Entry? && HasPage(t, i) then s.dir[i] else Zero
  }

  /** Just the frames of the range, if asked, and the tables given up became free. */
  ghost predicate Freed(s: State, t: State, a: nat, b: nat, lo: nat, hi: nat, release: bool) {
    t.free == s.free + (if release then Mapped(s, a, b) else {}) + Emptied(s, t, lo, hi)
  }

  ghost predicate Names(dir: seq<Pte>, f: nat) {
    exists i :: 0 <= i < |dir| && i < USER_TABLES && dir[i].Entry? && dir[i].frame == f
  }

  /** Tables of other directories are untouched. */
  ghost predicate OthersKept(s: State, t: State) {
    forall f :: f in s.tables && !Names(s.dir, f) ==> f in t.tables && t.tables[f] == s.tables[f]
  }

  /** Only tables of this directory changed, and those it has now were its own or free. */
  ghost predicate Confined(s: State, t: State) {
    OthersKept(s, t) && |t.dir| == PER_TABLE && forall f :: Names(t.dir, f) ==> Names(s.dir, f) || f in s.free
  }

  /** Every entry that is left was there before. */
  ghost predicate Fewer(s: State, t: State) {
    forall f, j :: f in t.tables && 0 <= j < |t.tables[f]| && t.tables[f][j].Entry? ==>
      f in s.tables && j < |s.tables[f]| && s.tables[f][j] == t.tables[f][j]
  }

  ghost predicate Unmapped(s: State, t: State, a: nat, b: nat, hi: nat, release: bool) {
    && Gone(s, t, a, b) && Pruned(s, t, a / PER_TABLE, hi) && Freed(s, t, a, b, a / PER_TABLE, hi, release)
    && OthersKept(s, t) && Fewer(s, t)
  }

  lemma UnmappedNone(s: State, a: nat, release: bool)
    requires Good(s)
    ensures Unmapped(s, s, a, a, a / PER_TABLE, release)
  {
    assert Mapped(s, a, a) == {};
    assert Emptied(s, s, a / PER_TABLE, a / PER_TABLE) == {};
    hide Look;
  }

  // one directory entry further

  lemma GoneStep(s: State, m: State, i: nat, from: nat, to: nat, release: bool, a: nat)
    requires Good(m) && i < USER_TABLES && from <= to <= PER_TABLE && a <= i * PER_TABLE + from
    requires Gone(s, m, a, i * PER_TABLE + from)
    ensures m.dir[i].Entry? ==> Gone(s, TableCleared(m, i, from, to, release), a, i * PER_TABLE + to)
    ensures m.dir[i].Zero? ==> Gone(s, m, a, i * PER_TABLE + to)
  {
    if m.dir[i].Entry? {
      forall v: nat | v < USER_PAGES
        ensures var t := TableCleared(m, i, from, to, release);
          Look(t.dir, t.tables, v) == if a <= v < i * PER_TABLE + to then Zero else Look(s.dir, s.tables, v)
      {
        ClearedLook(m, i, from, to, release, v);
        hide Look, TableCleared;
      }
    } else {
      forall v: nat | i * PER_TABLE + from <= v < i * PER_TABLE + to ensures Look(m.dir, m.tables, v) == Zero {
        assert v / PER_TABLE == i;
      }
      hide Look;
    }
  }

  /** Entries other than the one visited keep their pages. */
  lemma HasPageKept(m: State, i: nat, from: nat, to: nat, release: bool, k: nat)
    requires Good(m) && i < USER_TABLES && m.dir[i].Entry? && from <= to <= PER_TABLE && k < USER_TABLES && k != i
    ensures HasPage(TableCleared(m, i, from, to, release), k) == HasPage(m, k)
  {
    var t := TableCleared(m, i, from, to, release);
    forall v: nat | v / PER_TABLE == k ensures Look(t.dir, t.tables, v) == Look(m.dir, m.tables, v) {
      ClearedLook(m, i, from, to, release, v);
    }
    hide Look, TableCleared;
  }

  /** The entry visited keeps its table just when a page is left in it. */
  lemma HasPageHere(m: State, i: nat, from: nat, to: nat, release: bool)
    requires Good(m) && i < USER_TABLES && m.dir[i].Entry? && from <= to <= PER_TABLE
    ensures var t := TableCleared(m, i, from, to, release); t.dir[i] == if HasPage(t, i) then m.dir[i] else Zero
  {
    var t := TableCleared(m, i, from, to, release);
    var f := m.dir[i].frame;
    var c := Cleared(m.tables[f], from, to);
    if AllZero(c) {
      assert forall v: nat :: v / PER_TABLE == i ==> Look(t.dir, t.tables, v) == Zero;
    } else {
      var j :| 0 <= j < |c| && c[j].Entry?;
      var v := i * PER_TABLE + j;
      assert v / PER_TABLE == i && v % PER_TABLE == j;
      assert Look(t.dir, t.tables, v) == c[j];
    }
  }

  lemma PrunedStep(s: State, m: State, i: nat, from: nat, to: nat, release: bool, lo: nat)
    requires Good(m) && lo <= i < USER_TABLES && from <= to <= PER_TABLE && Pruned(s, m, lo, i)
    ensures m.dir[i].Entry? ==> Pruned(s, TableCleared(m, i, from, to, release), lo, i + 1)
    ensures m.dir[i].Zero? ==> Pruned(s, m, lo, i + 1)
  {
    hide Look, HasPage;
    if m.dir[i].Entry? {
      var t := TableCleared(m, i, from, to, release);
      HasPageHere(m, i, from, to, release);
      forall k | lo <= k < i ensures HasPage(t, k) == HasPage(m, k) {
        HasPageKept(m, i, from, to, release, k);
      }
      assert forall k :: 0 <= k < PER_TABLE && k != i ==> t.dir[k] == m.dir[k];
      hide TableCleared;
    }
  }

  lemma MappedStep(s: State, i: nat, from: nat, to: nat, a: nat)
    requires from <= to <= PER_TABLE && a <= i * PER_TABLE + from
    ensures Mapped(s, a, i * PER_TABLE + to)
         == Mapped(s, a, i * PER_TABLE + from) + Mapped(s, i * PER_TABLE + from, i * PER_TABLE + to)
  {
    hide Look;
  }

  /** What the stretch of the table maps is what the pages of the range map. */
  lemma MappedTable(s: State, m: State, i: nat, from: nat, to: nat, a: nat)
    requires Good(m) && i < USER_TABLES && from <= to <= PER_TABLE && a <= i * PER_TABLE + from
    requires Gone(s, m, a, i * PER_TABLE + from)
    ensures Mapped(s, i * PER_TABLE + from, i * PER_TABLE + to)
         == if m.dir[i].Entry? then Frames(m.tables[m.dir[i].frame], from, to) else {}
  {
    var lo, hi := i * PER_TABLE + from, i * PER_TABLE + to;
    forall v: nat | lo <= v < hi ensures Look(s.dir, s.tables, v) == Look(m.dir, m.tables, v) {
    }
    forall v: nat | lo <= v < hi
      ensures Look(m.dir, m.tables, v) == if m.dir[i].Entry? then m.tables[m.dir[i].frame][v - i * PER_TABLE] else Zero
    {
      assert v / PER_TABLE == i && v % PER_TABLE == v - i * PER_TABLE;
    }
    hide Look;
    if m.dir[i].Entry? {
      var t := m.tables[m.dir[i].frame];
      forall f ensures f in Frames(t, from, to) <==> f in Mapped(s, lo, hi) {
        if f in Frames(t, from, to) {
          var j :| from <= j < to && t[j].Entry? && t[j].frame == f;
          assert Look(m.dir, m.tables, i * PER_TABLE + j) == t[j];
        }
      }
    }
  }

  lemma EmptiedStep(s: State, m: State, t: State, i: nat, lo: nat)
    requires |s.dir| == |m.dir| == |t.dir| == PER_TABLE && lo <= i < PER_TABLE && m.dir[i] == s.dir[i]
    requires forall k :: 0 <= k < PER_TABLE && k != i ==> t.dir[k] == m.dir[k]
    ensures Emptied(s, t, lo, i + 1) ==
            Emptied(s, m, lo, i) + if s.dir[i].Entry? && t.dir[i].Zero? then {s.dir[i].frame} else {}
  {
  }

  lemma FreedStep(s: State, m: State, i: nat, from: nat, to: nat, release: bool, a: nat)
    requires Good(m) && a / PER_TABLE <= i < USER_TABLES && from <= to <= PER_TABLE && a <= i * PER_TABLE + from
    requires Gone(s, m, a, i * PER_TABLE + from) && Pruned(s, m, a / PER_TABLE, i)
    requires Freed(s, m, a, i * PER_TABLE + from, a / PER_TABLE, i, release)
    ensures m.dir[i].Entry? ==>
      Freed(s, TableCleared(m, i, from, to, release), a, i * PER_TABLE + to, a / PER_TABLE, i + 1, release)
    ensures m.dir[i].Zero? ==> Freed(s, m, a, i * PER_TABLE + to, a / PER_TABLE, i + 1, release)
  {
    MappedStep(s, i, from, to, a);
    MappedTable(s, m, i, from, to, a);
    hide Look, Mapped, HasPage, Frames;
    if m.dir[i].Entry? {
      var t := TableCleared(m, i, from, to, release);
      EmptiedStep(s, m, t, i, a / PER_TABLE);
    } else {
      EmptiedStep(s, m, m, i, a / PER_TABLE);
    }
    hide Emptied, Gone;
  }

  lemma KeptStep(s: State, m: State, i: nat, from: nat, to: nat, release: bool)
    requires Good(m) && i < USER_TABLES && m.dir[i].Entry? && from <= to <= PER_TABLE && OthersKept(s, m)
    requires |s.dir| == PER_TABLE && m.dir[i] == s.dir[i]
    ensures OthersKept(s, TableCleared(m, i, from, to, release))
  {
    assert Names(s.dir, m.dir[i].frame);
    hide Names, Frames;
  }

  lemma FewerStep(s: State, m: State, i: nat, from: nat, to: nat, release: bool)
    requires Good(m) && i < USER_TABLES && m.dir[i].Entry? && from <= to <= PER_TABLE && Fewer(s, m)
    ensures Fewer(s, TableCleared(m, i, from, to, release))
  {
    var f := m.dir[i].frame;
    var c := Cleared(m.tables[f], from, to);
    assert forall j :: 0 <= j < |c| ==> c[j] == if from <= j < to then Zero else m.tables[f][j];
    hide Cleared, Frames;
  }

  lemma UnmappedStep(s: State, m: State, i: nat, from: nat, to: nat, release: bool, a: nat)
    requires Good(m) && a / PER_TABLE <= i < USER_TABLES && from <= to <= PER_TABLE && a <= i * PER_TABLE + from
    requires Unmapped(s, m, a, i * PER_TABLE + from, i, release)
    ensures m.dir[i].Entry? ==>
      Unmapped(s, TableCleared(m, i, from, to, release), a, i * PER_TABLE + to, i + 1, release)
    ensures m.dir[i].Zero? ==> Unmapped(s, m, a, i * PER_TABLE + to, i + 1, release)
  {
    GoneStep(s, m, i, from, to, release, a);
    PrunedStep(s, m, i, from, to, release, a / PER_TABLE);
    FreedStep(s, m, i, from, to, release, a);
    assert m.dir[i] == s.dir[i];
    if m.dir[i].Entry? {
      KeptStep(s, m, i, from, to, release);
      FewerStep(s, m, i, from, to, release);
    }
    hide Gone, Pruned, Freed, OthersKept, Fewer, TableCleared;
  }

  /** How many pages hold this many bytes. */
  function Pages(bytes: nat): nat {
    (bytes + 4095) / 4096
  }

  const SUPERVISOR_START := 0x80000000

  /** The range is all user pages. */
  predicate InUser(addr: nat, n: nat) {
    addr < SUPERVISOR_START && n <= Pages(SUPERVISOR_START - addr)
  }

  lemma UserRange(addr: nat, n: nat)
    ensures InUser(addr, n) <==> addr < SUPERVISOR_START && addr / 4096 + n <= USER_PAGES
  {
  }

  class Memory {
    var free: set<nat>
    var tables: map<nat, seq<Pte>>
    var pages: map<nat, Page>

    ghost predicate Valid(space: Space)
      reads this, space
    {
      Good(StateOf(space))
    }

    function StateOf(space: Space): State
      reads this, space
    {
      State(space.dir, tables, free)
    }

    constructor (frames: set<nat>)
      requires 0 !in frames
      ensures free == frames && tables == map[]
    {
      free := frames;
      tables := map[];
      pages := map[];
    }

    /** Clears entries of one table, freeing their frames if asked. */
    method ClearEntries(f: nat, from: nat, to: nat, release: bool)
      requires f in tables && from <= to <= |tables[f]|
      modifies this`tables, this`free
      ensures tables == old(tables)[f := Cleared(old(tables)[f], from, to)]
      ensures free == old(free) + if release then Frames(old(tables)[f], from, to) else {}
    {
      ghost var t, before := tables[f], free;
      assert Frames(t, from, from) == {};
      assert Cleared(t, from, from) == t;
      assert tables == old(tables)[f := t];
      for j := from to to
        invariant tables == old(tables)[f := Cleared(t, from, j)]
        invariant free == before + if release then Frames(t, from, j) else {}
        modifies this`tables, this`free
      {
        var p := tables[f][j];
        assert p == t[j];
        ClearedStep(t, from, j);
        if p.Entry? {
          tables := tables[f := tables[f][j := Zero]];
          if release {
            free := free + {p.frame};
          }
        }
      }
    }

    /** Clears part of the table of one directory entry; a table left empty goes too. */
    method ClearTable(space: Space, i: nat, from: nat, to: nat, release: bool)
      requires Valid(space) && i < USER_TABLES && space.dir[i].Entry? && from <= to <= PER_TABLE
      modifies this`tables, this`free, space
      ensures StateOf(space) == TableCleared(old(StateOf(space)), i, from, to, release)
    {
      var f := space.dir[i].frame;
      var t := tables[f];
      var exists_ := SomePresent(t, 0, from);
      ClearEntries(f, from, to, release);
      ClearedAt(t, from, to);
      if !exists_ {
        exists_ := SomePresent(tables[f], to, PER_TABLE);
        if !exists_ {
          space.dir := space.dir[i := Zero];
          tables := tables - {f};
          free := free + {f};
        }
      }
    }

    /** Clears a range, directory entry by directory entry. */
    method Clear(space: Space, addr: nat, n: nat, release: bool) returns (ok: bool)
      requires Valid(space)
      modifies this`tables, this`free, space
      ensures Valid(space) && ok == InUser(addr, n)
      ensures !ok ==> StateOf(space) == old(StateOf(space))
      ensures ok ==> Removed(old(StateOf(space)), StateOf(space), addr / 4096, n, release)
    {
      hide Good, Look, Unmapped, TableCleared;
      UserRange(addr, n);
      if !InUser(addr, n) {
        return false;
      }
      hide InUser;
      ghost var s, a := StateOf(space), addr / 4096;
      var i, offset, rest := addr / 4096 / PER_TABLE, addr / 4096 % PER_TABLE, n;
      UnmappedNone(s, a, release);
      while rest > 0
        invariant 0 <= rest <= n && Valid(space) && a / PER_TABLE <= i && 0 <= offset < PER_TABLE
        invariant rest > 0 ==> i * PER_TABLE + offset == a + n - rest
        invariant Unmapped(s, StateOf(space), a, a + n - rest, i, release)
        invariant rest == 0 && n > 0 ==> i == (a + n - 1) / PER_TABLE + 1
        invariant rest == n ==> i == a / PER_TABLE
        decreases rest
        modifies this`tables, this`free, space
      {
        var max := PER_TABLE;
        if max - offset > rest {
          max := offset + rest;
        }
        ghost var m := StateOf(space);
        GoodDir(m);
        UnmappedStep(s, m, i, offset, max, release, a);
        if space.dir[i].Entry? {
          ClearedGood(m, i, offset, max, release);
          ClearTable(space, i, offset, max, release);
        }
        rest := rest - (max - offset);
        offset := 0;
        i := i + 1;
      }
      ok := true;
    }

    /** A free frame, cleared, or 0 when there is none. */
    method Palloc() returns (f: nat)
      requires 0 !in free
      modifies this`free, this`pages
      ensures f == 0 <==> old(free) == {}
      ensures f == 0 ==> free == old(free) && pages == old(pages)
      ensures f != 0 ==> f in old(free) && free == old(free) - {f} && pages == old(pages)[f := ZeroPage()]
    {
      if free == {} {
        return 0;
      }
      f :| f in free;
      free := free - {f};
      pages := pages[f := ZeroPage()];
    }

    /** Maps into one space the pages another has there. */
    method AttachEntries(dest: Space, src: Space, i: nat, from: nat, to: nat, writable: bool, ghost s: State,
                         ghost a: nat)
      returns (result: Errno, ghost b: nat)
      requires dest != src && Good(s) && Source(s, src.dir) && i < USER_TABLES && from <= to <= PER_TABLE
        && a <= i * PER_TABLE + from
      requires Attaching(s, StateOf(dest), src.dir, a, i * PER_TABLE + from, writable)
      requires |dest.dir| == |src.dir| == PER_TABLE && dest.dir[i].Entry? && src.dir[i].Entry?
      requires Vacant(s.dir, s.tables, a, i * PER_TABLE + from)
      modifies this`tables
      ensures result.OK? || result.EFAULT? || result.EADDRINUSE?
      ensures result.OK? ==> Attaching(s, StateOf(dest), src.dir, a, i * PER_TABLE + to, writable)
      ensures result.OK? ==> Vacant(s.dir, s.tables, a, i * PER_TABLE + to)
      ensures result.EFAULT? ==> !AllThere(src.dir, s.tables, a, i * PER_TABLE + to)
      ensures result.EADDRINUSE? ==> !Vacant(s.dir, s.tables, a, i * PER_TABLE + to)
      ensures b <= i * PER_TABLE + to && Attaching(s, StateOf(dest), src.dir, a, b, writable)
    {
      hide Good, Source, Attaching, Look, WithPage, Vacant, AllThere;
      for j := from to to
        invariant Attaching(s, StateOf(dest), src.dir, a, i * PER_TABLE + j, writable)
        invariant Vacant(s.dir, s.tables, a, i * PER_TABLE + j)
      {
        ghost var m := StateOf(dest);
        AttachFacts(s, m, src.dir, a, i * PER_TABLE + j, writable, i, j);
        NotThere(src.dir, s.tables, a, i * PER_TABLE + to, i * PER_TABLE + j);
        NotThere(s.dir, s.tables, a, i * PER_TABLE + to, i * PER_TABLE + j);
        var p := tables[src.dir[i].frame][j];
        if p.Zero? {
          return EFAULT, i * PER_TABLE + j;
        }
        if tables[dest.dir[i].frame][j].Entry? {
          return EADDRINUSE, i * PER_TABLE + j;
        }
        VacantMore(s.dir, s.tables, a, i * PER_TABLE + j);
        AttachPage(s, m, src.dir, a, i, j, writable);
        WithPageIs(m, i, j, Entry(p.frame, writable));
        var f := dest.dir[i].frame;
        tables := tables[f := tables[f][j := Entry(p.frame, writable)]];
        assert i * PER_TABLE + (j + 1) == i * PER_TABLE + j + 1;
      }
      result, b := OK, i * PER_TABLE + to;
    }

    /** Makes sure that a directory entry has a table; gives the frame of a new one, or 0. */
    method EnsureTable(space: Space, i: nat) returns (ok: bool, f: nat)
      requires Ready(StateOf(space)) && i < USER_TABLES && i < |space.dir|
      modifies this, space
      ensures !ok ==> old(free) == {} && old(space.dir)[i].Zero?
      ensures !ok || old(space.dir)[i].Entry? ==> StateOf(space) == old(StateOf(space)) && pages == old(pages)
      ensures ok && old(space.dir)[i].Zero? ==>
        f in old(free) && StateOf(space) == WithTable(old(StateOf(space)), i, f) && pages == old(pages)[f := ZeroPage()]
      ensures ok ==> |space.dir| == |old(space.dir)| && space.dir[i].Entry?
    {
      hide ZeroPage, Live;
      ok, f := true, 0;
      if space.dir[i].Zero? {
        ghost var m := StateOf(space);
        f := Palloc();
        if f == 0 {
          return false, 0;
        }
        WithTableIs(m, i, f);
        tables := tables[f := seq(PER_TABLE, _ => Zero)];
        space.dir := space.dir[i := Entry(f, true)];
      }
    }

    /** Maps a range of pages of one space into another; the pages are then shared. */
    method Attach(dest: Space, src: Space, addr: nat, n: nat, writable: bool) returns (result: Errno)
      requires dest != src && Ready(StateOf(dest)) && Source(StateOf(dest), src.dir)
      modifies this, dest
      ensures result.EINVAL? <==> !InUser(addr, n)
      ensures Ready(StateOf(dest)) && (result.EINVAL? ==> StateOf(dest) == old(StateOf(dest)))
      ensures result.OK? <==> var a := addr / 4096;
        && InUser(addr, n) && AllThere(src.dir, old(tables), a, a + n) && Vacant(old(dest.dir), old(tables), a, a + n)
        && |Missing(old(dest.dir), a / PER_TABLE, Past(a, n))| <= |old(free)|
      ensures result.EFAULT? ==> !AllThere(src.dir, old(tables), addr / 4096, addr / 4096 + n)
      ensures result.EADDRINUSE? ==> !Vacant(old(dest.dir), old(tables), addr / 4096, addr / 4096 + n)
      ensures result.ENOMEM? ==>
        |Missing(old(dest.dir), addr / 4096 / PER_TABLE, Past(addr / 4096, n))| > |old(free)|
      ensures result.OK? ==>
        Attaching(old(StateOf(dest)), StateOf(dest), src.dir, addr / 4096, addr / 4096 + n, writable)
      ensures !result.EINVAL? ==> exists b: nat ::
        && b <= addr / 4096 + n
        && Attaching(old(StateOf(dest)), StateOf(dest), src.dir, addr / 4096, b, writable)
      ensures result.OK? ==> NewWithin(old(StateOf(dest)), StateOf(dest), addr / 4096 / PER_TABLE, Past(addr / 4096, n))
      ensures Confined(old(StateOf(dest)), StateOf(dest)) && Undisturbed(old(StateOf(dest)), old(pages), pages)
      ensures forall v: nat :: v < USER_PAGES ==> Look(src.dir, tables, v) == Look(src.dir, old(tables), v)
    {
      hide Good, Look, Source, Attaching, WithTable, Live, Confined, Undisturbed, ZeroPage, Vacant, AllThere, Missing;
      hide NewWithin, Past;
      UserRange(addr, n);
      ConfinedSelf(StateOf(dest));
      UndisturbedSelf(StateOf(dest), pages);
      if !InUser(addr, n) {
        return EINVAL;
      }
      hide InUser;
      ghost var s, a := StateOf(dest), addr / 4096;
      var i, offset, rest := addr / 4096 / PER_TABLE, addr / 4096 % PER_TABLE, n;
      AttachNone(s, src.dir, a, writable);
      VacantNone(s.dir, s.tables, a);
      NewWithinNone(s, a / PER_TABLE);
      PastNone(a);
      AttachDone(s, s, src.dir, a, a, writable);
      while rest > 0
        invariant 0 <= rest <= n && 0 <= offset < PER_TABLE && a / PER_TABLE <= i
        invariant rest > 0 ==> i * PER_TABLE + offset == a + n - rest
        invariant Attaching(s, StateOf(dest), src.dir, a, a + n - rest, writable)
        invariant NewWithin(s, StateOf(dest), a / PER_TABLE, i) && Undisturbed(s, old(pages), pages)
        invariant Vacant(s.dir, s.tables, a, a + n - rest)
        invariant rest == 0 ==> i == Past(a, n)
        decreases rest
        modifies this, dest
      {
        AttachDone(s, StateOf(dest), src.dir, a, a + n - rest, writable);
        RowOf(i, offset, a + n - rest);
        PastRow(a, n, i, offset);
        if src.dir[i].Zero? {
          RowEmpty(src.dir, s.tables, a + n - rest);
          NotThere(src.dir, s.tables, a, a + n, a + n - rest);
          return EFAULT;
        }
        var max := PER_TABLE;
        if max - offset > rest {
          max := offset + rest;
        }
        ghost var m, q := StateOf(dest), pages;
        var ok, f := EnsureTable(dest, i);
        if !ok {
          AttachLacks(s, m, src.dir, a, a + n - rest, writable, i, Past(a, n));
          return ENOMEM;
        }
        NewWithinMore(s, m, a / PER_TABLE, i, f);
        if m.dir[i].Zero? {
          AttachDone(s, m, src.dir, a, a + n - rest, writable);
          UndisturbedFresh(s, old(pages), q, f);
          AttachTable(s, m, src.dir, a, a + n - rest, writable, i, f);
        }
        ghost var t := StateOf(dest);
        ghost var b;
        result, b := AttachEntries(dest, src, i, offset, max, writable, s, a);
        NewWithinSame(s, t, StateOf(dest), a / PER_TABLE, i + 1);
        if !result.OK? {
          Shorter(src.dir, s.tables, a, i * PER_TABLE + max, a + n);
          Shorter(s.dir, s.tables, a, i * PER_TABLE + max, a + n);
          AttachDone(s, StateOf(dest), src.dir, a, b, writable);
          return;
        }
        rest := rest - (max - offset);
        offset := 0;
        i := i + 1;
      }
      AttachDone(s, StateOf(dest), src.dir, a, a + n, writable);
      AttachHad(s, StateOf(dest), src.dir, a, n, writable);
      result := OK;
    }

    /** Gives one space its own copies of the pages another has there. */
    method CopyEntries(dest: Space, src: Space, i: nat, from: nat, to: nat, writable: bool, ghost s: State,
                       ghost a: nat, ghost pages0: map<nat, Page>) returns (result: Errno, ghost b: nat)
      requires dest != src && Ready(s) && Source(s, src.dir) && i < USER_TABLES && from <= to <= PER_TABLE
        && a <= i * PER_TABLE + from
      requires Copying(s, StateOf(dest), src.dir, pages0, pages, a, i * PER_TABLE + from, writable)
      requires |dest.dir| == |src.dir| == PER_TABLE && dest.dir[i].Entry? && src.dir[i].Entry?
      requires Vacant(s.dir, s.tables, a, i * PER_TABLE + from)
      modifies this
      ensures result.OK? || result.EFAULT? || result.EADDRINUSE? || result.ENOMEM?
      ensures result.OK? ==> Copying(s, StateOf(dest), src.dir, pages0, pages, a, i * PER_TABLE + to, writable)
      ensures result.OK? ==> Vacant(s.dir, s.tables, a, i * PER_TABLE + to)
      ensures result.EFAULT? ==> !AllThere(src.dir, s.tables, a, i * PER_TABLE + to)
      ensures result.EADDRINUSE? ==> !Vacant(s.dir, s.tables, a, i * PER_TABLE + to)
      ensures result.ENOMEM? ==> free == {} && b < i * PER_TABLE + to
      ensures dest.dir == old(dest.dir)
      ensures b <= i * PER_TABLE + to && Copying(s, StateOf(dest), src.dir, pages0, pages, a, b, writable)
    {
      hide Good, Live, Source, Copying, Look, WithPage, Vacant, AllThere;
      for j := from to to
        invariant Copying(s, StateOf(dest), src.dir, pages0, pages, a, i * PER_TABLE + j, writable)
        invariant Vacant(s.dir, s.tables, a, i * PER_TABLE + j)
        modifies this
      {
        ghost var m, q := StateOf(dest), pages;
        CopyFacts(s, m, src.dir, pages0, pages, a, i * PER_TABLE + j, writable, i, j);
        NotThere(src.dir, s.tables, a, i * PER_TABLE + to, i * PER_TABLE + j);
        NotThere(s.dir, s.tables, a, i * PER_TABLE + to, i * PER_TABLE + j);
        var p := tables[src.dir[i].frame][j];
        if p.Zero? {
          return EFAULT, i * PER_TABLE + j;
        }
        if tables[dest.dir[i].frame][j].Entry? {
          return EADDRINUSE, i * PER_TABLE + j;
        }
        var f := Palloc();
        if f == 0 {
          return ENOMEM, i * PER_TABLE + j;
        }
        VacantMore(s.dir, s.tables, a, i * PER_TABLE + j);
        CopyPage(s, m, src.dir, pages0, q, a, i, j, writable, f);
        WithPageIs(m.(free := m.free - {f}), i, j, Entry(f, writable));
        assert WithFresh(m, i, j, f, writable) == WithPage(m.(free := m.free - {f}), i, j, Entry(f, writable));
        var d := dest.dir[i].frame;
        tables := tables[d := tables[d][j := Entry(f, writable)]];
        pages := pages[f := PageOf(pages, p.frame)];
        Overwritten(q, f, ZeroPage(), PageOf(q, p.frame));
        assert i * PER_TABLE + (j + 1) == i * PER_TABLE + j + 1;
      }
      result, b := OK, i * PER_TABLE + to;
    }

    /** Copies a range of pages of one space into another. */
    method Copy(dest: Space, src: Space, addr: nat, n: nat, writable: bool) returns (result: Errno)
      requires dest != src && Ready(StateOf(dest)) && Source(StateOf(dest), src.dir)
      modifies this, dest
      ensures result.EINVAL? <==> !InUser(addr, n)
      ensures Ready(StateOf(dest)) && (result.EINVAL? ==> StateOf(dest) == old(StateOf(dest)))
      ensures result.OK? <==> var a := addr / 4096;
        && InUser(addr, n) && AllThere(src.dir, old(tables), a, a + n) && Vacant(old(dest.dir), old(tables), a, a + n)
        && |Missing(old(dest.dir), a / PER_TABLE, Past(a, n))| + n <= |old(free)|
      ensures result.EFAULT? ==> !AllThere(src.dir, old(tables), addr / 4096, addr / 4096 + n)
      ensures result.EADDRINUSE? ==> !Vacant(old(dest.dir), old(tables), addr / 4096, addr / 4096 + n)
      ensures result.ENOMEM? ==>
        |Missing(old(dest.dir), addr / 4096 / PER_TABLE, Past(addr / 4096, n))| + n > |old(free)|
      ensures result.OK? ==>
        Copying(old(StateOf(dest)), StateOf(dest), src.dir, old(pages), pages, addr / 4096, addr / 4096 + n, writable)
      ensures !result.EINVAL? ==> exists b: nat ::
        && b <= addr / 4096 + n
        && Copying(old(StateOf(dest)), StateOf(dest), src.dir, old(pages), pages, addr / 4096, b, writable)
      ensures Confined(old(StateOf(dest)), StateOf(dest)) && Undisturbed(old(StateOf(dest)), old(pages), pages)
      ensures forall v: nat :: v < USER_PAGES ==> Look(src.dir, tables, v) == Look(src.dir, old(tables), v)
    {
      hide Good, Look, Source, Copying, WithTable, Live, Confined, Undisturbed, Vacant, AllThere, Missing, NewWithin;
      hide Past, ZeroPage;
      UserRange(addr, n);
      ConfinedSelf(StateOf(dest));
      UndisturbedSelf(StateOf(dest), pages);
      if !InUser(addr, n) {
        return EINVAL;
      }
      hide InUser;
      ghost var s, a := StateOf(dest), addr / 4096;
      var i, offset, rest := addr / 4096 / PER_TABLE, addr / 4096 % PER_TABLE, n;
      CopyNone(s, src.dir, pages, a, writable);
      VacantNone(s.dir, s.tables, a);
      NewWithinNone(s, a / PER_TABLE);
      PastNone(a);
      CopyDone(s, s, src.dir, pages, pages, a, a, writable);
      while rest > 0
        invariant 0 <= rest <= n && 0 <= offset < PER_TABLE && a / PER_TABLE <= i
        invariant rest > 0 ==> i * PER_TABLE + offset == a + n - rest
        invariant Copying(s, StateOf(dest), src.dir, old(pages), pages, a, a + n - rest, writable)
        invariant NewWithin(s, StateOf(dest), a / PER_TABLE, i) && Vacant(s.dir, s.tables, a, a + n - rest)
        invariant rest == 0 ==> i == Past(a, n)
        decreases rest
        modifies this, dest
      {
        CopyDone(s, StateOf(dest), src.dir, old(pages), pages, a, a + n - rest, writable);
        RowOf(i, offset, a + n - rest);
        PastRow(a, n, i, offset);
        if src.dir[i].Zero? {
          RowEmpty(src.dir, s.tables, a + n - rest);
          NotThere(src.dir, s.tables, a, a + n, a + n - rest);
          return EFAULT;
        }
        var max := PER_TABLE;
        if max - offset > rest {
          max := offset + rest;
        }
        ghost var m, q := StateOf(dest), pages;
        var ok, f := EnsureTable(dest, i);
        if !ok {
          CopyLacks(s, m, src.dir, old(pages), q, a, a + n - rest, writable, i, i, n);
          return ENOMEM;
        }
        NewWithinMore(s, m, a / PER_TABLE, i, f);
        if m.dir[i].Zero? {
          CopyTable(s, m, src.dir, old(pages), q, a, a + n - rest, writable, i, f);
        }
        ghost var t := StateOf(dest);
        ghost var b;
        result, b := CopyEntries(dest, src, i, offset, max, writable, s, a, old(pages));
        NewWithinSame(s, t, StateOf(dest), a / PER_TABLE, i + 1);
        if !result.OK? {
          Shorter(src.dir, s.tables, a, i * PER_TABLE + max, a + n);
          Shorter(s.dir, s.tables, a, i * PER_TABLE + max, a + n);
          if result.ENOMEM? {
            CopyLacks(s, StateOf(dest), src.dir, old(pages), pages, a, b, writable, i + 1, i, n);
          }
          CopyDone(s, StateOf(dest), src.dir, old(pages), pages, a, b, writable);
          return;
        }
        rest := rest - (max - offset);
        offset := 0;
        i := i + 1;
      }
      CopyDone(s, StateOf(dest), src.dir, old(pages), pages, a, a + n, writable);
      CopyHad(s, StateOf(dest), src.dir, old(pages), pages, a, n, writable);
      result := OK;
    }

    /** Makes sure that there are pages in part of one table. */
    method MapEntries(space: Space, i: nat, from: nat, to: nat, writable: bool, ghost s: State, ghost a: nat,
                      ghost pages0: map<nat, Page>) returns (ok: bool)
      requires Ready(s) && i < USER_TABLES && from <= to <= PER_TABLE && a <= i * PER_TABLE + from
      requires Mapping(s, StateOf(space), pages0, pages, a, i * PER_TABLE + from, writable)
      requires |space.dir| == PER_TABLE && space.dir[i].Entry?
      modifies this
      ensures space.dir == old(space.dir)
      ensures !ok ==> free == {} && exists b: nat ::
        && a <= b < i * PER_TABLE + to && Look(s.dir, s.tables, b).Zero?
        && Mapping(s, StateOf(space), pages0, pages, a, b, writable)
      ensures ok ==> Mapping(s, StateOf(space), pages0, pages, a, i * PER_TABLE + to, writable)
      ensures exists b: nat :: b <= i * PER_TABLE + to && Mapping(s, StateOf(space), pages0, pages, a, b, writable)
    {
      hide Good, Live, Mapping, Look, WithPage;
      for j := from to to
        invariant Mapping(s, StateOf(space), pages0, pages, a, i * PER_TABLE + j, writable)
        modifies this
      {
        ghost var m, q := StateOf(space), pages;
        MapFacts(s, m, pages0, pages, a, i * PER_TABLE + j, writable, i, j);
        if tables[space.dir[i].frame][j].Zero? {
          var f := Palloc();
          if f == 0 {
            FirstPage(s, m, pages0, q, a, i * PER_TABLE + j, writable);
            assert Mapping(s, StateOf(space), pages0, pages, a, i * PER_TABLE + j, writable);
            return false;
          }
          MapFresh(s, m, pages0, q, a, i, j, writable, f);
          WithPageIs(m.(free := m.free - {f}), i, j, Entry(f, writable));
          assert WithFresh(m, i, j, f, writable) == WithPage(m.(free := m.free - {f}), i, j, Entry(f, writable));
          var d := space.dir[i].frame;
          tables := tables[d := tables[d][j := Entry(f, writable)]];
        } else {
          MapPresent(s, m, pages0, q, a, i, j, writable);
        }
        assert i * PER_TABLE + (j + 1) == i * PER_TABLE + j + 1;
      }
      ok := true;
    }

    /** Gives a space a page wherever the range has none; the caller keeps the range below the supervisor's. */
    method Map(space: Space, addr: nat, count: nat, writable: bool) returns (ok: bool)
      requires Ready(StateOf(space)) && addr / 4096 + count <= USER_PAGES
      modifies this, space
      ensures Ready(StateOf(space))
      ensures Confined(old(StateOf(space)), StateOf(space)) && Undisturbed(old(StateOf(space)), old(pages), pages)
      ensures ok ==>
        Mapping(old(StateOf(space)), StateOf(space), old(pages), pages, addr / 4096, addr / 4096 + count, writable)
      ensures ok <==> var a := addr / 4096;
        |Missing(old(space.dir), a / PER_TABLE, Past(a, count))| + |Absent(old(StateOf(space)), a, a + count)|
          <= |old(free)|
      ensures exists b: nat ::
        && b <= addr / 4096 + count
        && Mapping(old(StateOf(space)), StateOf(space), old(pages), pages, addr / 4096, b, writable)
    {
      hide Good, Look, Mapping, WithTable, Live, Confined, Undisturbed, Missing, Absent, NewWithin, Past, ZeroPage;
      ghost var s, a := StateOf(space), addr / 4096;
      var i, j, n := addr / 4096 / PER_TABLE, addr / 4096 % PER_TABLE, count;
      MapNone(s, pages, a, writable);
      NewWithinNone(s, a / PER_TABLE);
      PastNone(a);
      MapDone(s, s, pages, pages, a, a, writable);
      while n > 0
        invariant 0 <= n <= count && 0 <= j < PER_TABLE && a / PER_TABLE <= i
        invariant n > 0 ==> i * PER_TABLE + j == a + count - n
        invariant Mapping(s, StateOf(space), old(pages), pages, a, a + count - n, writable)
        invariant NewWithin(s, StateOf(space), a / PER_TABLE, i)
        invariant n == 0 ==> i == Past(a, count)
        decreases n
        modifies this, space
      {
        MapDone(s, StateOf(space), old(pages), pages, a, a + count - n, writable);
        PastRow(a, count, i, j);
        ghost var m, q := StateOf(space), pages;
        var f;
        ok, f := EnsureTable(space, i);
        if !ok {
          MapLacks(s, m, old(pages), q, a, a + count - n, writable, i, i, count);
          return;
        }
        NewWithinMore(s, m, a / PER_TABLE, i, f);
        if m.dir[i].Zero? {
          MapTable(s, m, old(pages), q, a, a + count - n, writable, i, f);
        }
        ghost var t := StateOf(space);
        var to := if PER_TABLE - j > n then j + n else PER_TABLE;
        ok := MapEntries(space, i, j, to, writable, s, a, old(pages));
        NewWithinSame(s, t, StateOf(space), a / PER_TABLE, i + 1);
        if !ok {
          ghost var c: nat :| a <= c < i * PER_TABLE + to && Look(s.dir, s.tables, c).Zero?
            && Mapping(s, StateOf(space), old(pages), pages, a, c, writable);
          MapLacks(s, StateOf(space), old(pages), pages, a, c, writable, i + 1, i, count);
          ghost var b: nat :| b <= i * PER_TABLE + to && Mapping(s, StateOf(space), old(pages), pages, a, b, writable);
          MapDone(s, StateOf(space), old(pages), pages, a, b, writable);
          return;
        }
        n := n - (to - j);
        j := 0;
        i := i + 1;
      }
      MapDone(s, StateOf(space), old(pages), pages, a, a + count, writable);
      MapHad(s, StateOf(space), old(pages), pages, a, count, writable);
      ok := true;
    }

    /** Takes pages out of a space and frees them.  No mapped page is free then just when none of them was
        mapped anywhere else. */
    method Unmap(space: Space, addr: nat, n: nat) returns (ok: bool)
      requires Valid(space)
      modifies this`tables, this`free, space
      ensures Valid(space) && ok == InUser(addr, n)
      ensures !ok ==> StateOf(space) == old(StateOf(space))
      ensures ok ==> Removed(old(StateOf(space)), StateOf(space), addr / 4096, n, true)
      ensures Confined(old(StateOf(space)), StateOf(space))
      ensures ok && Ready(old(StateOf(space))) ==>
        (Ready(StateOf(space)) <==> Alone(old(StateOf(space)), addr / 4096, addr / 4096 + n))
    {
      UserRange(addr, n);
      hide Good, Live, Unmapped, InUser, Alone, Confined;
      ghost var s := StateOf(space);
      ConfinedSelf(s);
      ok := Clear(space, addr, n, true);
      if ok {
        RemovedConfined(s, StateOf(space), addr / 4096, n, true);
      }
      if ok && Live(s.free, s.tables) {
        UnmappedReady(s, StateOf(space), addr / 4096, n);
      }
    }

    /** Takes pages out of a space without freeing them. */
    method Detach(space: Space, addr: nat, n: nat) returns (ok: bool)
      requires Valid(space)
      modifies this`tables, this`free, space
      ensures Valid(space) && ok == InUser(addr, n)
      ensures !ok ==> StateOf(space) == old(StateOf(space))
      ensures ok ==> Removed(old(StateOf(space)), StateOf(space), addr / 4096, n, false)
      ensures Confined(old(StateOf(space)), StateOf(space))
      ensures Ready(old(StateOf(space))) ==> Ready(StateOf(space))
    {
      UserRange(addr, n);
      hide Good, Live, Unmapped, InUser, Confined;
      ghost var s := StateOf(space);
      ConfinedSelf(s);
      ok := Clear(space, addr, n, false);
      if ok {
        RemovedConfined(s, StateOf(space), addr / 4096, n, false);
      }
      if ok && Live(s.free, s.tables) {
        DetachedReady(s, StateOf(space), addr / 4096, n);
      }
    }
  }

  datatype Errno = OK | EINVAL | EFAULT | EADDRINUSE | ENOMEM

  lemma AttachNone(s: State, src: seq<Pte>, a: nat, writable: bool)
    requires Ready(s)
    ensures Attaching(s, s, src, a, a, writable)
  {
    GrownNone(s, a);
    hide Grown, Look;
  }

  lemma AttachDone(s: State, t: State, src: seq<Pte>, a: nat, b: nat, writable: bool)
    requires Attaching(s, t, src, a, b, writable) && Source(s, src)
    ensures Ready(t) && |t.dir| == PER_TABLE && |src| == PER_TABLE && 0 !in t.free && t.free <= s.free
    ensures Confined(s, t)
    ensures forall v: nat :: v < USER_PAGES ==> Look(src, t.tables, v) == Look(src, s.tables, v)
  {
    GrownConfined(s, t, a, b);
    forall v: nat | v < USER_PAGES ensures Look(src, t.tables, v) == Look(src, s.tables, v) {
      SourceSame(s, t, src, a, b, v);
    }
    hide Look, Source, Grown;
  }

  lemma WithTableIs(s: State, i: nat, f: nat)
    requires i < |s.dir|
    ensures WithTable(s, i, f) ==
            State(s.dir[i := Entry(f, true)], s.tables[f := seq(PER_TABLE, _ => Zero)], s.free - {f})
  {
  }

  function ZeroPage(): Page {
    seq(4096, _ => 0)
  }

  lemma AttachFacts(s: State, m: State, src: seq<Pte>, a: nat, b: nat, writable: bool, i: nat, j: nat)
    requires Source(s, src) && Attaching(s, m, src, a, b, writable) && i < USER_TABLES && j < PER_TABLE
    requires |src| == |m.dir| == PER_TABLE && src[i].Entry? && m.dir[i].Entry?
    ensures src[i].frame in m.tables && |m.tables[src[i].frame]| == PER_TABLE
    ensures m.dir[i].frame in m.tables && |m.tables[m.dir[i].frame]| == PER_TABLE
    ensures Look(src, m.tables, i * PER_TABLE + j) == m.tables[src[i].frame][j]
    ensures a <= b == i * PER_TABLE + j ==>
      m.tables[src[i].frame][j] == Look(src, s.tables, b) && m.tables[m.dir[i].frame][j] == Look(s.dir, s.tables, b)
  {
    ProperMore(s, m, src, a, b);
    TableIn(m, src, i);
    TableIn(m, m.dir, i);
    EntryLook(src, m.tables, i, j);
    EntryLook(m.dir, m.tables, i, j);
    if a <= b == i * PER_TABLE + j {
      FirstLook(s, m, a, b, src);
    }
    hide Look, Source, Shared, OnlyTables, OthersKept;
  }

  lemma WithPageIs(s: State, i: nat, j: nat, e: Pte)
    requires i < |s.dir| && s.dir[i].Entry? && s.dir[i].frame in s.tables && j < |s.tables[s.dir[i].frame]|
    ensures WithPage(s, i, j, e) == State(s.dir, s.tables[s.dir[i].frame := s.tables[s.dir[i].frame][j := e]], s.free)
  {
  }

  lemma EntryLook(dir: seq<Pte>, tables: map<nat, seq<Pte>>, i: nat, j: nat)
    requires i < |dir| && dir[i].Entry? && dir[i].frame in tables && j < PER_TABLE
      && |tables[dir[i].frame]| == PER_TABLE
    ensures Look(dir, tables, i * PER_TABLE + j) == tables[dir[i].frame][j]
  {
    var v := i * PER_TABLE + j;
    assert v / PER_TABLE == i && v % PER_TABLE == j;
  }

  lemma TableIn(s: State, src: seq<Pte>, i: nat)
    requires Apart(s.free, s.tables) && Proper(src, s.tables) && i < USER_TABLES && src[i].Entry?
    ensures src[i].frame in s.tables && |s.tables[src[i].frame]| == PER_TABLE
  {
  }

  lemma ProperMore(s: State, t: State, src: seq<Pte>, a: nat, b: nat)
    requires Source(s, src) && Grown(s, t, a, b)
    ensures Proper(src, t.tables)
  {
    hide Look, Names;
  }

  lemma ConfinedSelf(s: State)
    requires Good(s)
    ensures Confined(s, s)
  {
  }

  lemma GoodDir(s: State)
    requires Good(s)
    ensures |s.dir| == PER_TABLE
  {
  }

  /** The directory entries that hold the pages of a range end here. */
  function Past(a: nat, n: nat): nat {
    if n == 0 then a / PER_TABLE else (a + n - 1) / PER_TABLE + 1
  }

  /** New tables are those of directory entries in the range. */
  ghost predicate NewWithin(s: State, t: State, lo: nat, hi: nat) {
    forall k :: 0 <= k < |s.dir| && k < |t.dir| && s.dir[k].Zero? && t.dir[k].Entry? ==> lo <= k < hi
  }

  ghost predicate Removed(s: State, t: State, a: nat, n: nat, release: bool) {
    Unmapped(s, t, a, a + n, Past(a, n), release)
  }

  class Space {
    var dir: seq<Pte>

    constructor (dir: seq<Pte>)
      ensures this.dir == dir
    {
      this.dir := dir;
    }
  }

  lemma ClearedAt(t: seq<Pte>, from: nat, to: nat)
    requires from <= to <= |t|
    ensures forall j :: 0 <= j < |t| ==> Cleared(t, from, to)[j] == if from <= j < to then Zero else t[j]
  {
  }

  lemma ClearedStep(t: seq<Pte>, from: nat, j: nat)
    requires from <= j < |t|
    ensures Cleared(t, from, j + 1) == Cleared(t, from, j)[j := Zero]
    ensures Frames(t, from, j + 1) == Frames(t, from, j) + if t[j].Entry? then {t[j].frame} else {}
    ensures t[j].Zero? ==> Cleared(t, from, j)[j := Zero] == Cleared(t, from, j)
  {
    ClearedAt(t, from, j);
    ClearedAt(t, from, j + 1);
  }

  // --- adding a table, and filling an entry

  ghost function WithTable(s: State, i: nat, f: nat): State
    requires i < |s.dir|
  {
    State(s.dir[i := Entry(f, true)], s.tables[f := seq(PER_TABLE, _ => Zero)], s.free - {f})
  }

  ghost function WithPage(s: State, i: nat, j: nat, e: Pte): State
    requires i < |s.dir| && s.dir[i].Entry? && s.dir[i].frame in s.tables && j < |s.tables[s.dir[i].frame]|
  {
    s.(tables := s.tables[s.dir[i].frame := s.tables[s.dir[i].frame][j := e]])
  }

  /** A state from which pages can be added: besides being in order, no mapped page is free. */
  ghost predicate Ready(s: State) {
    Good(s) && Live(s.free, s.tables)
  }

  lemma TableAdded(s: State, i: nat, f: nat)
    requires Ready(s) && i < USER_TABLES && s.dir[i].Zero? && f in s.free
    ensures Ready(WithTable(s, i, f))
  {
    var t := WithTable(s, i, f);
    assert forall k :: 0 <= k < PER_TABLE ==> t.dir[k] == if k == i then Entry(f, true) else s.dir[k];
    assert forall x :: x in t.tables ==> x == f || (x in s.tables && t.tables[x] == s.tables[x]);
  }

  lemma TableLook(s: State, i: nat, f: nat, v: nat)
    requires Good(s) && i < USER_TABLES && s.dir[i].Zero? && f in s.free && v < USER_PAGES
    ensures Look(WithTable(s, i, f).dir, WithTable(s, i, f).tables, v) == Look(s.dir, s.tables, v)
  {
    var k := v / PER_TABLE;
    if k != i && s.dir[k].Entry? {
      assert s.dir[k].frame != f;
    }
  }

  lemma PageAdded(s: State, i: nat, j: nat, e: Pte)
    requires Ready(s) && i < USER_TABLES && s.dir[i].Entry? && j < PER_TABLE
    requires e.Entry? && e.frame !in s.tables && e.frame !in s.free && e.frame != 0
    ensures Ready(WithPage(s, i, j, e))
  {
    var f := s.dir[i].frame;
    var t := WithPage(s, i, j, e);
    assert forall x :: x in t.tables <==> x in s.tables;
    assert forall x, k :: x in t.tables && 0 <= k < |t.tables[x]| ==>
      t.tables[x][k] == if x == f && k == j then e else s.tables[x][k];
    hide WithPage;
  }

  lemma PageLook(s: State, i: nat, j: nat, e: Pte, v: nat)
    requires Good(s) && i < USER_TABLES && s.dir[i].Entry? && j < PER_TABLE && v < USER_PAGES
    ensures var t := WithPage(s, i, j, e);
      Look(t.dir, t.tables, v) == if v == i * PER_TABLE + j then e else Look(s.dir, s.tables, v)
  {
    var k := v / PER_TABLE;
    assert v == k * PER_TABLE + v % PER_TABLE;
  }

  // --- what adding a range does

  /** Outside the range every translation is as it was, and so are the directory entries there were. */
  ghost predicate Grown(s: State, t: State, a: nat, b: nat) {
    && (forall v: nat :: v < USER_PAGES && !(a <= v < b) ==> Look(t.dir, t.tables, v) == Look(s.dir, s.tables, v))
    && |t.dir| == |s.dir| == PER_TABLE
    && (forall i :: 0 <= i < PER_TABLE && (s.dir[i].Entry? || i >= USER_TABLES) ==> t.dir[i] == s.dir[i])
    && (forall i :: 0 <= i < PER_TABLE && s.dir[i].Zero? && t.dir[i].Entry? ==> t.dir[i].frame in s.free)
    && t.free <= s.free && OthersKept(s, t) && (forall f :: f in t.tables ==> f in s.tables || f in s.free)
  }

  lemma GrownConfined(s: State, t: State, a: nat, b: nat)
    requires Grown(s, t, a, b)
    ensures Confined(s, t)
  {
    forall f | Names(t.dir, f) ensures Names(s.dir, f) || f in s.free {
      var i :| 0 <= i < |t.dir| && i < USER_TABLES && t.dir[i].Entry? && t.dir[i].frame == f;
    }
    hide Look, Names;
  }

  /** The frames taken for new tables. */
  ghost function NewTables(s: State, t: State): set<nat> {
    set i | 0 <= i < |s.dir| && i < |t.dir| && s.dir[i].Zero? && t.dir[i].Entry? :: t.dir[i].frame
  }

  lemma GrownNone(s: State, a: nat)
    requires Good(s)
    ensures Grown(s, s, a, a) && NewTables(s, s) == {}
  {
    hide Look;
  }

  lemma GrownTable(s: State, m: State, a: nat, b: nat, i: nat, f: nat)
    requires Good(m) && Grown(s, m, a, b) && i < USER_TABLES && m.dir[i].Zero? && f in m.free && Good(s)
    ensures Grown(s, WithTable(m, i, f), a, b)
    ensures NewTables(s, WithTable(m, i, f)) == NewTables(s, m) + {f}
  {
    var t := WithTable(m, i, f);
    forall v: nat | v < USER_PAGES ensures Look(t.dir, t.tables, v) == Look(m.dir, m.tables, v) {
      TableLook(m, i, f, v);
    }
    hide Look;
    NewTablesPlus(s, m, t, i, f);
  }

  lemma NewTablesPlus(s: State, m: State, t: State, i: nat, f: nat)
    requires |s.dir| == |m.dir| == |t.dir| == PER_TABLE && i < PER_TABLE && m.dir[i].Zero? && s.dir[i].Zero?
    requires t.dir == m.dir[i := Entry(f, true)]
    ensures NewTables(s, t) == NewTables(s, m) + {f}
  {
    forall x ensures x in NewTables(s, t) <==> x in NewTables(s, m) + {f} {
      if x == f {
        assert t.dir[i].frame == f;
      }
      if x in NewTables(s, m) {
        var k :| 0 <= k < PER_TABLE && s.dir[k].Zero? && m.dir[k].Entry? && m.dir[k].frame == x;
        assert t.dir[k] == m.dir[k];
      }
    }
  }

  lemma GrownPage(s: State, m: State, a: nat, i: nat, j: nat, e: Pte)
    requires Good(m) && Grown(s, m, a, i * PER_TABLE + j) && i < USER_TABLES && m.dir[i].Entry? && j < PER_TABLE
    requires Good(s) && a <= i * PER_TABLE + j
    ensures Grown(s, WithPage(m, i, j, e), a, i * PER_TABLE + j + 1)
    ensures NewTables(s, WithPage(m, i, j, e)) == NewTables(s, m)
  {
    var t := WithPage(m, i, j, e);
    forall v: nat | v < USER_PAGES
      && v != i * PER_TABLE + j ensures Look(t.dir, t.tables, v) == Look(m.dir, m.tables, v) {
      PageLook(m, i, j, e, v);
    }
    GrownOthers(s, m, i, j, e);
    hide Look, OthersKept;
  }

  lemma GrownOthers(s: State, m: State, i: nat, j: nat, e: Pte)
    requires Good(m) && Good(s) && OthersKept(s, m) && i < USER_TABLES && m.dir[i].Entry? && j < PER_TABLE
    requires s.dir[i].Entry? ==> m.dir[i] == s.dir[i]
    requires s.dir[i].Zero? ==> m.dir[i].frame !in s.tables
    ensures OthersKept(s, WithPage(m, i, j, e))
  {
    var f := m.dir[i].frame;
    if s.dir[i].Entry? {
      assert Names(s.dir, f);
    }
    hide Names;
  }

  lemma FrameTaken(s: State, m: State, a: nat, b: nat, f: nat)
    requires Ready(m) && Grown(s, m, a, b)
    ensures Ready(m.(free := m.free - {f})) && Grown(s, m.(free := m.free - {f}), a, b)
    ensures NewTables(s, m.(free := m.free - {f})) == NewTables(s, m)
  {
    hide Look, Names;
  }

  /** The directory read from shares no table with the one written to. */
  ghost predicate Source(s: State, src: seq<Pte>) {
    Proper(src, s.tables) && forall i :: 0 <= i < USER_TABLES && src[i].Entry? ==> !Names(s.dir, src[i].frame)
  }

  /** What is read from does not change while pages are added. */
  lemma SourceSame(s: State, t: State, src: seq<Pte>, a: nat, b: nat, v: nat)
    requires Source(s, src) && Grown(s, t, a, b) && v < USER_PAGES
    ensures Look(src, t.tables, v) == Look(src, s.tables, v)
  {
    hide Names;
  }

  /** A page read from is mapped, so its frame is neither a table nor free. */
  lemma SourceFrame(m: State, src: seq<Pte>, v: nat)
    requires Ready(m) && Look(src, m.tables, v).Entry?
    ensures var f := Look(src, m.tables, v).frame; f !in m.tables && f !in m.free && f != 0
  {
  }

  // --- sharing

  ghost predicate Shared(s: State, t: State, src: seq<Pte>, a: nat, b: nat, writable: bool) {
    forall v: nat :: a <= v < b ==>
      Look(src, s.tables, v).Entry? && Look(t.dir, t.tables, v) == Entry(Look(src, s.tables, v).frame, writable)
  }

  /** The frames that are no longer free are those of new tables. */
  ghost predicate OnlyTables(s: State, t: State) {
    t.free !! NewTables(s, t) && s.free == t.free + NewTables(s, t)
  }

  ghost predicate Attaching(s: State, t: State, src: seq<Pte>, a: nat, b: nat, writable: bool) {
    Ready(t) && Grown(s, t, a, b) && Shared(s, t, src, a, b, writable) && OnlyTables(s, t)
  }

  lemma AttachTable(s: State, m: State, src: seq<Pte>, a: nat, b: nat, writable: bool, i: nat, f: nat)
    requires Good(s) && Attaching(s, m, src, a, b, writable) && i < USER_TABLES && m.dir[i].Zero? && f in m.free
      && b <= USER_PAGES
    ensures Attaching(s, WithTable(m, i, f), src, a, b, writable)
  {
    var t := WithTable(m, i, f);
    TableAdded(m, i, f);
    GrownTable(s, m, a, b, i, f);
    forall v: nat | a <= v < b ensures Look(t.dir, t.tables, v) == Look(m.dir, m.tables, v) {
      TableLook(m, i, f, v);
    }
    hide Ready, Grown, Look;
  }

  lemma AttachPage(s: State, m: State, src: seq<Pte>, a: nat, i: nat, j: nat, writable: bool)
    requires Good(s) && Source(s, src) && i < USER_TABLES && j < PER_TABLE && a <= i * PER_TABLE + j
    requires |m.dir| == PER_TABLE && Attaching(s, m, src, a, i * PER_TABLE + j, writable) && m.dir[i].Entry?
    requires Look(src, m.tables, i * PER_TABLE + j).Entry?
    ensures m.dir[i].frame in m.tables && j < |m.tables[m.dir[i].frame]|
    ensures Attaching(s, WithPage(m, i, j, Entry(Look(src, m.tables, i * PER_TABLE + j).frame, writable)), src, a,
                      i * PER_TABLE + j + 1, writable)
  {
    hide Grown, Look, NewTables, Source, Ready;
    var at := i * PER_TABLE + j;
    var e := Entry(Look(src, m.tables, at).frame, writable);
    SourceFrame(m, src, at);
    SourceSame(s, m, src, a, at, at);
    PageShape(s, m, a, i, j, e);
    var t := WithPage(m, i, j, e);
    hide WithPage;
    forall v: nat | a <= v < at + 1
      ensures Look(t.dir, t.tables, v) == if v == at then e else Look(m.dir, m.tables, v)
    {
      ReadyGood(m);
      PageLook(m, i, j, e, v);
    }
  }

  lemma PageShape(s: State, m: State, a: nat, i: nat, j: nat, e: Pte)
    requires Good(s) && Ready(m) && Grown(s, m, a, i * PER_TABLE + j) && i < USER_TABLES && m.dir[i].Entry?
      && j < PER_TABLE
    requires e.Entry? && e.frame !in m.tables && e.frame !in m.free && e.frame != 0 && a <= i * PER_TABLE + j
    ensures m.dir[i].frame in m.tables && j < |m.tables[m.dir[i].frame]|
    ensures var t := WithPage(m, i, j, e);
      Ready(t) && Grown(s, t, a, i * PER_TABLE + j + 1) && NewTables(s, t) == NewTables(s, m) && t.free == m.free
  {
    PageAdded(m, i, j, e);
    GrownPage(s, m, a, i, j, e);
    hide Grown, Look, NewTables;
  }

  // --- copying

  function PageOf(pages: map<nat, Page>, f: nat): Page {
    if f in pages then pages[f] else []
  }

  lemma Overwritten(pages: map<nat, Page>, f: nat, p: Page, q: Page)
    ensures pages[f := p][f := q] == pages[f := q]
  {
  }

  /** Every page of the range is a frame of its own, free before, with the contents of the page read. */
  ghost predicate Fresh(s: State, t: State, src: seq<Pte>, pages0: map<nat, Page>, pages: map<nat, Page>, a: nat,
                        b: nat, writable: bool) {
    forall v: nat :: a <= v < b ==>
      && Look(src, s.tables, v).Entry? && Look(t.dir, t.tables, v).Entry?
        && Look(t.dir, t.tables, v).writable == writable
      && Look(t.dir, t.tables, v).frame in s.free && Look(t.dir, t.tables, v).frame !in t.free
      && PageOf(pages, Look(t.dir, t.tables, v).frame) == PageOf(pages0, Look(src, s.tables, v).frame)
  }

  ghost predicate Distinct(t: State, a: nat, b: nat) {
    forall v: nat, w: nat :: a <= v < w < b && Look(t.dir, t.tables, v).Entry? && Look(t.dir, t.tables, w).Entry? ==>
      Look(t.dir, t.tables, v).frame != Look(t.dir, t.tables, w).frame
  }

  /** Frames that were in use hold what they held. */
  ghost predicate Undisturbed(s: State, pages0: map<nat, Page>, pages: map<nat, Page>) {
    forall f :: f !in s.free ==> PageOf(pages, f) == PageOf(pages0, f)
  }

  ghost predicate Copying(s: State, t: State, src: seq<Pte>, pages0: map<nat, Page>, pages: map<nat, Page>, a: nat,
                          b: nat, writable: bool) {
    && Ready(t) && Grown(s, t, a, b) && Fresh(s, t, src, pages0, pages, a, b, writable) && Distinct(t, a, b)
    && Undisturbed(s, pages0, pages) && s.free == t.free + NewTables(s, t) + Mapped(t, a, b)
  }

  lemma CopyNone(s: State, src: seq<Pte>, pages: map<nat, Page>, a: nat, writable: bool)
    requires Ready(s)
    ensures Copying(s, s, src, pages, pages, a, a, writable)
  {
    GrownNone(s, a);
    hide Grown, Look;
  }

  lemma CopyDone(s: State, t: State, src: seq<Pte>, pages0: map<nat, Page>, pages: map<nat, Page>, a: nat, b: nat,
                 writable: bool)
    requires Copying(s, t, src, pages0, pages, a, b, writable) && Source(s, src)
    ensures Ready(t) && |t.dir| == PER_TABLE && |src| == PER_TABLE && 0 !in t.free
    ensures Confined(s, t) && Undisturbed(s, pages0, pages)
    ensures forall v: nat :: v < USER_PAGES ==> Look(src, t.tables, v) == Look(src, s.tables, v)
  {
    GrownConfined(s, t, a, b);
    forall v: nat | v < USER_PAGES ensures Look(src, t.tables, v) == Look(src, s.tables, v) {
      SourceSame(s, t, src, a, b, v);
    }
    hide Look, Source, Grown, Fresh, Distinct, Undisturbed;
  }

  lemma CopyFacts(s: State, m: State, src: seq<Pte>, pages0: map<nat, Page>, pages: map<nat, Page>, a: nat, b: nat,
                  writable: bool, i: nat, j: nat)
    requires Source(s, src) && Copying(s, m, src, pages0, pages, a, b, writable) && i < USER_TABLES && j < PER_TABLE
    requires |src| == |m.dir| == PER_TABLE && src[i].Entry? && m.dir[i].Entry?
    ensures src[i].frame in m.tables && |m.tables[src[i].frame]| == PER_TABLE
    ensures m.dir[i].frame in m.tables && |m.tables[m.dir[i].frame]| == PER_TABLE && 0 !in m.free
    ensures Look(src, m.tables, i * PER_TABLE + j) == m.tables[src[i].frame][j]
    ensures m.tables[src[i].frame][j].Entry? ==> m.tables[src[i].frame][j].frame !in m.free
    ensures a <= b == i * PER_TABLE + j ==>
      m.tables[src[i].frame][j] == Look(src, s.tables, b) && m.tables[m.dir[i].frame][j] == Look(s.dir, s.tables, b)
  {
    ProperMore(s, m, src, a, b);
    TableIn(m, src, i);
    TableIn(m, m.dir, i);
    EntryLook(src, m.tables, i, j);
    EntryLook(m.dir, m.tables, i, j);
    if a <= b == i * PER_TABLE + j {
      FirstLook(s, m, a, b, src);
    }
    hide Fresh, Distinct, Undisturbed, Look, Grown, Source;
  }

  lemma MappedSame(m: State, t: State, a: nat, b: nat)
    requires forall v: nat :: a <= v < b ==> Look(t.dir, t.tables, v) == Look(m.dir, m.tables, v)
    ensures Mapped(t, a, b) == Mapped(m, a, b)
  {
    hide Look;
  }

  lemma CopyTable(s: State, m: State, src: seq<Pte>, pages0: map<nat, Page>, pages: map<nat, Page>, a: nat, b: nat,
                  writable: bool, i: nat, f: nat)
    requires Good(s) && Copying(s, m, src, pages0, pages, a, b, writable) && b <= USER_PAGES
    requires i < USER_TABLES && m.dir[i].Zero? && f in m.free
    ensures Copying(s, WithTable(m, i, f), src, pages0, pages[f := ZeroPage()], a, b, writable)
  {
    var t := WithTable(m, i, f);
    TableAdded(m, i, f);
    GrownTable(s, m, a, b, i, f);
    forall v: nat | a <= v < b ensures Look(t.dir, t.tables, v) == Look(m.dir, m.tables, v) {
      TableLook(m, i, f, v);
    }
    MappedSame(m, t, a, b);
    assert f in s.free;
    assert t.free == m.free - {f};
    hide Ready, Grown, Look, NewTables, Mapped, WithTable;
    CopyKept(s, m, t, src, pages0, pages, pages[f := ZeroPage()], a, b, writable, f);
  }

  /** Pages already copied are not touched by what happens to a frame that was still free. */
  lemma CopyKept(s: State, m: State, t: State, src: seq<Pte>, pages0: map<nat, Page>, pages: map<nat, Page>,
                 after: map<nat, Page>, a: nat, b: nat, writable: bool, f: nat)
    requires Fresh(s, m, src, pages0, pages, a, b, writable) && Distinct(m, a, b) && Undisturbed(s, pages0, pages)
    requires f in m.free && f in s.free && t.free == m.free - {f}
    requires forall v: nat :: a <= v < b ==> Look(t.dir, t.tables, v) == Look(m.dir, m.tables, v)
    requires forall g :: g != f ==> PageOf(after, g) == PageOf(pages, g)
    ensures Fresh(s, t, src, pages0, after, a, b, writable) && Distinct(t, a, b) && Undisturbed(s, pages0, after)
  {
    hide Look, PageOf;
  }

  lemma MappedPlus(t: State, a: nat, b: nat)
    requires a <= b && Look(t.dir, t.tables, b).Entry?
    ensures Mapped(t, a, b + 1) == Mapped(t, a, b) + {Look(t.dir, t.tables, b).frame}
  {
    hide Look;
  }

  /** Taking a free frame for page `at` and filling its entry. */
  ghost function WithFresh(m: State, i: nat, j: nat, f: nat, writable: bool): State
    requires i < |m.dir| && m.dir[i].Entry? && m.dir[i].frame in m.tables && j < |m.tables[m.dir[i].frame]|
  {
    WithPage(m.(free := m.free - {f}), i, j, Entry(f, writable))
  }

  lemma FreshShape(s: State, m: State, a: nat, i: nat, j: nat, f: nat, writable: bool)
    requires Good(s) && Ready(m) && Grown(s, m, a, i * PER_TABLE + j) && i < USER_TABLES && m.dir[i].Entry?
      && j < PER_TABLE
    requires f in m.free && a <= i * PER_TABLE + j
    ensures m.dir[i].frame in m.tables && j < |m.tables[m.dir[i].frame]| && f in s.free
    ensures var t := WithFresh(m, i, j, f, writable);
      && Ready(t) && Grown(s, t, a, i * PER_TABLE + j + 1) && NewTables(s, t) == NewTables(s, m)
        && t.free == m.free - {f}
  {
    var k := m.(free := m.free - {f});
    assert f !in m.tables && f != 0 && f in s.free;
    FrameTaken(s, m, a, i * PER_TABLE + j, f);
    PageAdded(k, i, j, Entry(f, writable));
    GrownPage(s, k, a, i, j, Entry(f, writable));
    hide Grown, Look, NewTables;
  }

  lemma FreshLook(m: State, i: nat, j: nat, f: nat, writable: bool, v: nat)
    requires Ready(m) && i < USER_TABLES && m.dir[i].Entry? && j < PER_TABLE && v < USER_PAGES
    ensures m.dir[i].frame in m.tables && j < |m.tables[m.dir[i].frame]|
    ensures var t := WithFresh(m, i, j, f, writable);
      Look(t.dir, t.tables, v) == if v == i * PER_TABLE + j then Entry(f, writable) else Look(m.dir, m.tables, v)
  {
    PageLook(m, i, j, Entry(f, writable), v);
  }

  lemma CopyPage(s: State, m: State, src: seq<Pte>, pages0: map<nat, Page>, pages: map<nat, Page>, a: nat, i: nat,
                 j: nat, writable: bool, f: nat)
    requires Ready(s) && Source(s, src) && i < USER_TABLES && j < PER_TABLE && a <= i * PER_TABLE + j
      && |m.dir| == PER_TABLE
    requires Copying(s, m, src, pages0, pages, a, i * PER_TABLE + j, writable) && m.dir[i].Entry? && f in m.free
    requires Look(src, m.tables, i * PER_TABLE + j).Entry?
    ensures m.dir[i].frame in m.tables && j < |m.tables[m.dir[i].frame]|
    ensures var at := i * PER_TABLE + j;
      Copying(s, WithFresh(m, i, j, f, writable), src, pages0,
              pages[f := PageOf(pages, Look(src, m.tables, at).frame)], a, at + 1, writable)
  {
    hide Ready, Grown, Look, NewTables, Mapped, WithFresh, Source, Fresh, Distinct, Undisturbed;
    var at := i * PER_TABLE + j;
    var g := Look(src, m.tables, at).frame;
    var after := pages[f := PageOf(pages, g)];
    ReadyGood(s);
    FreshShape(s, m, a, i, j, f, writable);
    var t := WithFresh(m, i, j, f, writable);
    SourceSame(s, m, src, a, at, at);
    SourceFrame(s, src, at);
    forall v: nat | a <= v < at + 1
      ensures Look(t.dir, t.tables, v) == if v == at then Entry(f, writable) else Look(m.dir, m.tables, v)
    {
      FreshLook(m, i, j, f, writable, v);
    }
    MappedSame(m, t, a, at);
    MappedPlus(t, a, at);
    CopyKept(s, m, t, src, pages0, pages, after, a, at, writable, f);
    NotYet(s, m, src, pages0, pages, a, at, writable, f);
    UndisturbedAt(s, pages0, pages, g);
    FreshOne(s, t, src, pages0, after, a, at, writable, f, g);
  }

  lemma ReadyGood(s: State)
    requires Ready(s)
    ensures Good(s)
  {
  }

  lemma NotYet(s: State, m: State, src: seq<Pte>, pages0: map<nat, Page>, pages: map<nat, Page>, a: nat, b: nat,
               writable: bool, f: nat)
    requires Fresh(s, m, src, pages0, pages, a, b, writable) && f in m.free
    ensures forall v: nat :: a <= v < b && Look(m.dir, m.tables, v).Entry? ==> Look(m.dir, m.tables, v).frame != f
  {
    hide Look;
  }

  lemma UndisturbedSelf(s: State, pages: map<nat, Page>)
    ensures Undisturbed(s, pages, pages)
  {
  }

  /** A frame that was free may be cleared. */
  lemma UndisturbedFresh(s: State, pages0: map<nat, Page>, pages: map<nat, Page>, f: nat)
    requires Undisturbed(s, pages0, pages) && f in s.free
    ensures Undisturbed(s, pages0, pages[f := ZeroPage()])
  {
  }

  lemma UndisturbedAt(s: State, pages0: map<nat, Page>, pages: map<nat, Page>, f: nat)
    requires Undisturbed(s, pages0, pages) && f !in s.free
    ensures PageOf(pages, f) == PageOf(pages0, f)
  {
  }

  lemma FreshOne(s: State, t: State, src: seq<Pte>, pages0: map<nat, Page>, pages: map<nat, Page>, a: nat, b: nat,
                 writable: bool, f: nat, g: nat)
    requires Fresh(s, t, src, pages0, pages, a, b, writable) && Distinct(t, a, b)
    requires Look(src, s.tables, b).Entry? && Look(src, s.tables, b).frame == g
    requires Look(t.dir, t.tables, b) == Entry(f, writable) && f in s.free && f !in t.free
    requires PageOf(pages, f) == PageOf(pages0, g)
    requires forall v: nat :: a <= v < b && Look(t.dir, t.tables, v).Entry? ==> Look(t.dir, t.tables, v).frame != f
    ensures Fresh(s, t, src, pages0, pages, a, b + 1, writable) && Distinct(t, a, b + 1)
  {
    hide Look, PageOf;
  }

  // --- mapping

  /** Pages that were there stay; the others are frames of their own, free before and cleared. */
  ghost predicate Present(s: State, t: State, pages: map<nat, Page>, a: nat, b: nat, writable: bool) {
    forall v: nat :: a <= v < b ==>
      && Look(t.dir, t.tables, v).Entry?
      && (Look(s.dir, s.tables, v).Entry? ==> Look(t.dir, t.tables, v) == Look(s.dir, s.tables, v))
      && (Look(s.dir, s.tables, v).Zero? ==>
            && Look(t.dir, t.tables, v).writable == writable && Look(t.dir, t.tables, v).frame in s.free
            && Look(t.dir, t.tables, v).frame !in t.free && PageOf(pages, Look(t.dir, t.tables, v).frame) == ZeroPage())
  }

  /** The frames of the pages that were not there. */
  ghost function Added(s: State, t: State, a: nat, b: nat): set<nat> {
    set v | a <= v < b && Look(s.dir, s.tables, v).Zero?
      && Look(t.dir, t.tables, v).Entry? :: Look(t.dir, t.tables, v).frame
  }

  ghost predicate AddedOnce(s: State, t: State, a: nat, b: nat) {
    forall v: nat, w: nat :: a <= v < w < b && Look(s.dir, s.tables, v).Zero? && Look(s.dir, s.tables, w).Zero?
                             && Look(t.dir, t.tables, v).Entry? && Look(t.dir, t.tables, w).Entry? ==>
      Look(t.dir, t.tables, v).frame != Look(t.dir, t.tables, w).frame
  }

  ghost predicate Mapping(s: State, t: State, pages0: map<nat, Page>, pages: map<nat, Page>, a: nat, b: nat,
                          writable: bool) {
    && Ready(t) && Grown(s, t, a, b) && Present(s, t, pages, a, b, writable) && AddedOnce(s, t, a, b)
    && Undisturbed(s, pages0, pages) && s.free == t.free + NewTables(s, t) + Added(s, t, a, b)
  }

  lemma MapNone(s: State, pages: map<nat, Page>, a: nat, writable: bool)
    requires Ready(s)
    ensures Mapping(s, s, pages, pages, a, a, writable)
  {
    GrownNone(s, a);
    hide Grown, Look;
  }

  lemma MapDone(s: State, t: State, pages0: map<nat, Page>, pages: map<nat, Page>, a: nat, b: nat, writable: bool)
    requires Mapping(s, t, pages0, pages, a, b, writable)
    ensures Ready(t) && |t.dir| == PER_TABLE && 0 !in t.free
    ensures Confined(s, t) && Undisturbed(s, pages0, pages)
  {
    GrownConfined(s, t, a, b);
    hide Grown, Look, Present, AddedOnce, Undisturbed, Added, NewTables;
  }

  lemma MapFacts(s: State, m: State, pages0: map<nat, Page>, pages: map<nat, Page>, a: nat, b: nat, writable: bool,
                 i: nat, j: nat)
    requires Mapping(s, m, pages0, pages, a, b, writable) && i < USER_TABLES && j < PER_TABLE && |m.dir| == PER_TABLE
      && m.dir[i].Entry?
    ensures m.dir[i].frame in m.tables && |m.tables[m.dir[i].frame]| == PER_TABLE && 0 !in m.free
    ensures Look(m.dir, m.tables, i * PER_TABLE + j) == m.tables[m.dir[i].frame][j]
  {
    hide Grown, Present, AddedOnce, Undisturbed, Added, NewTables;
    TableIn(m, m.dir, i);
    EntryLook(m.dir, m.tables, i, j);
  }

  /** Pages already looked at are not touched by what happens to a frame that was still free. */
  lemma MapKept(s: State, m: State, t: State, pages0: map<nat, Page>, pages: map<nat, Page>, after: map<nat, Page>,
                a: nat, b: nat, writable: bool, f: nat)
    requires Present(s, m, pages, a, b, writable) && AddedOnce(s, m, a, b) && Undisturbed(s, pages0, pages)
    requires f in m.free && f in s.free && t.free == m.free - {f}
    requires forall v: nat :: a <= v < b ==> Look(t.dir, t.tables, v) == Look(m.dir, m.tables, v)
    requires forall g :: g != f ==> PageOf(after, g) == PageOf(pages, g)
    ensures Present(s, t, after, a, b, writable) && AddedOnce(s, t, a, b) && Undisturbed(s, pages0, after)
    ensures Added(s, t, a, b) == Added(s, m, a, b)
  {
    hide Look, PageOf, ZeroPage;
  }

  lemma MapTable(s: State, m: State, pages0: map<nat, Page>, pages: map<nat, Page>, a: nat, b: nat, writable: bool,
                 i: nat, f: nat)
    requires Good(s) && Mapping(s, m, pages0, pages, a, b, writable) && b <= USER_PAGES
    requires i < USER_TABLES && |m.dir| == PER_TABLE && m.dir[i].Zero? && f in m.free
    ensures Mapping(s, WithTable(m, i, f), pages0, pages[f := ZeroPage()], a, b, writable)
  {
    hide Look, Present, AddedOnce, Undisturbed, Added, ZeroPage;
    var t := WithTable(m, i, f);
    TableAdded(m, i, f);
    GrownTable(s, m, a, b, i, f);
    forall v: nat | a <= v < b ensures Look(t.dir, t.tables, v) == Look(m.dir, m.tables, v) {
      TableLook(m, i, f, v);
    }
    assert f in s.free && t.free == m.free - {f};
    hide Ready, Grown, NewTables, WithTable;
    MapKept(s, m, t, pages0, pages, pages[f := ZeroPage()], a, b, writable, f);
  }

  /** Outside the range nothing changed yet, so a page not there now was not there before. */
  lemma GrownAt(s: State, m: State, a: nat, b: nat)
    requires Grown(s, m, a, b) && b < USER_PAGES
    ensures Look(m.dir, m.tables, b) == Look(s.dir, s.tables, b)
  {
    hide Look;
  }

  lemma MapPresent(s: State, m: State, pages0: map<nat, Page>, pages: map<nat, Page>, a: nat, i: nat, j: nat,
                   writable: bool)
    requires Mapping(s, m, pages0, pages, a, i * PER_TABLE + j, writable) && i < USER_TABLES && j < PER_TABLE
      && a <= i * PER_TABLE + j
    requires Look(m.dir, m.tables, i * PER_TABLE + j).Entry?
    ensures Mapping(s, m, pages0, pages, a, i * PER_TABLE + j + 1, writable)
  {
    hide Look, Ready, Undisturbed, NewTables, PageOf, OthersKept;
    var at := i * PER_TABLE + j;
    GrownAt(s, m, a, at);
    assert Added(s, m, a, at + 1) == Added(s, m, a, at);
  }

  lemma MapFresh(s: State, m: State, pages0: map<nat, Page>, pages: map<nat, Page>, a: nat, i: nat, j: nat,
                 writable: bool, f: nat)
    requires Ready(s) && Mapping(s, m, pages0, pages, a, i * PER_TABLE + j, writable) && i < USER_TABLES
      && j < PER_TABLE
    requires a <= i * PER_TABLE + j && |m.dir| == PER_TABLE && m.dir[i].Entry? && f in m.free
    requires Look(m.dir, m.tables, i * PER_TABLE + j).Zero?
    ensures m.dir[i].frame in m.tables && j < |m.tables[m.dir[i].frame]|
    ensures Mapping(s, WithFresh(m, i, j, f, writable), pages0, pages[f := ZeroPage()], a, i * PER_TABLE + j + 1,
                    writable)
  {
    hide Ready, Grown, Look, NewTables, WithFresh, Present, AddedOnce, Undisturbed, Added, ZeroPage;
    var at := i * PER_TABLE + j;
    var after := pages[f := ZeroPage()];
    ReadyGood(s);
    FreshShape(s, m, a, i, j, f, writable);
    var t := WithFresh(m, i, j, f, writable);
    GrownAt(s, m, a, at);
    forall v: nat | a <= v < at + 1
      ensures Look(t.dir, t.tables, v) == if v == at then Entry(f, writable) else Look(m.dir, m.tables, v)
    {
      FreshLook(m, i, j, f, writable, v);
    }
    MapKept(s, m, t, pages0, pages, after, a, at, writable, f);
    AddedNot(s, m, pages, a, at, writable, f);
    PresentOne(s, t, after, a, at, writable, f);
  }

  lemma AddedNot(s: State, m: State, pages: map<nat, Page>, a: nat, b: nat, writable: bool, f: nat)
    requires Present(s, m, pages, a, b, writable) && f in m.free
    ensures forall v: nat :: a <= v < b && Look(s.dir, s.tables, v).Zero? && Look(m.dir, m.tables, v).Entry? ==>
      Look(m.dir, m.tables, v).frame != f
  {
    hide Look, PageOf;
  }

  lemma PresentOne(s: State, t: State, pages: map<nat, Page>, a: nat, b: nat, writable: bool, f: nat)
    requires a <= b && Present(s, t, pages, a, b, writable) && AddedOnce(s, t, a, b) && Look(s.dir, s.tables, b).Zero?
    requires Look(t.dir, t.tables, b) == Entry(f, writable) && f in s.free && f !in t.free
      && PageOf(pages, f) == ZeroPage()
    requires forall v: nat :: a <= v < b && Look(s.dir, s.tables, v).Zero? && Look(t.dir, t.tables, v).Entry? ==>
      Look(t.dir, t.tables, v).frame != f
    ensures Present(s, t, pages, a, b + 1, writable) && AddedOnce(s, t, a, b + 1)
    ensures Added(s, t, a, b + 1) == Added(s, t, a, b) + {f}
  {
    hide Look, PageOf, ZeroPage;
  }

  // --- what is left after pages have been taken out

  /** No entry other than those of the range maps a frame of the range. */
  predicate Alone(s: State, a: nat, b: nat) {
    forall f, j :: f in s.tables && 0 <= j < |s.tables[f]| && s.tables[f][j].Entry? &&
                   s.tables[f][j].frame in Mapped(s, a, b) ==>
      Within(s, a, b, f, j)
  }

  /** The entry is that of a page of the range. */
  predicate Within(s: State, a: nat, b: nat, f: nat, j: nat) {
    exists v: nat :: a <= v < b && At(s, v, f, j)
  }

  predicate At(s: State, v: nat, f: nat, j: nat) {
    v % PER_TABLE == j && v / PER_TABLE < |s.dir| && s.dir[v / PER_TABLE].Entry? && s.dir[v / PER_TABLE].frame == f
  }

  lemma RangeEnds(a: nat, n: nat)
    requires a + n <= USER_PAGES
    ensures Past(a, n) <= USER_TABLES && forall v: nat :: a <= v < a + n ==> a / PER_TABLE <= v / PER_TABLE < Past(a, n)
  {
  }

  lemma RemovedConfined(s: State, t: State, a: nat, n: nat, release: bool)
    requires Removed(s, t, a, n, release)
    ensures Confined(s, t)
  {
    hide Gone, Freed, Fewer, HasPage;
    forall f | Names(t.dir, f) ensures Names(s.dir, f) {
      var i :| 0 <= i < |t.dir| && i < USER_TABLES && t.dir[i].Entry? && t.dir[i].frame == f;
      assert t.dir[i] == s.dir[i];
    }
  }

  /** The tables given up were tables. */
  lemma EmptiedTables(s: State, t: State, lo: nat, hi: nat, f: nat)
    requires Good(s) && hi <= USER_TABLES && f in Emptied(s, t, lo, hi)
    ensures f in s.tables
  {
  }

  /** An entry that is still there maps no frame that became free, unless a page of the range had that frame. */
  lemma StillLive(s: State, t: State, a: nat, n: nat, release: bool, f: nat, j: nat)
    requires Ready(s) && Removed(s, t, a, n, release) && a + n <= USER_PAGES
    requires f in t.tables && j < |t.tables[f]| && t.tables[f][j].Entry?
    ensures t.tables[f][j].frame in t.free <==> release && t.tables[f][j].frame in Mapped(s, a, a + n)
  {
    RangeEnds(a, n);
    var x := t.tables[f][j].frame;
    assert f in s.tables && s.tables[f][j] == t.tables[f][j];
    assert x !in s.tables && x !in s.free;
    if x in Emptied(s, t, a / PER_TABLE, Past(a, n)) {
      EmptiedTables(s, t, a / PER_TABLE, Past(a, n), x);
    }
    hide Gone, Pruned, OthersKept, Fewer, Emptied, Mapped, Live, Good;
  }

  lemma DetachedReady(s: State, t: State, a: nat, n: nat)
    requires Ready(s) && Good(t) && Removed(s, t, a, n, false) && a + n <= USER_PAGES
    ensures Ready(t)
  {
    forall f, j | f in t.tables && 0 <= j < |t.tables[f]|
      && t.tables[f][j].Entry? ensures t.tables[f][j].frame !in t.free {
      StillLive(s, t, a, n, false, f, j);
    }
  }

  /** The entries of the range are gone from the tables that are left. */
  lemma RangeCleared(s: State, t: State, a: nat, n: nat, release: bool, f: nat, j: nat)
    requires Good(s) && Good(t) && Removed(s, t, a, n, release) && a + n <= USER_PAGES
    requires f in t.tables && j < |t.tables[f]| && Within(s, a, a + n, f, j)
    ensures t.tables[f][j].Zero?
  {
    var v: nat :| a <= v < a + n && At(s, v, f, j);
    var i := v / PER_TABLE;
    RangeEnds(a, n);
    if t.dir[i].Zero? {
      assert false;
    } else {
      assert t.dir[i] == s.dir[i];
      assert Look(t.dir, t.tables, v) == t.tables[f][j];
    }
  }

  /** An entry outside the range is left where it was. */
  lemma EntryStays(s: State, t: State, a: nat, n: nat, release: bool, f: nat, j: nat)
    requires Good(s) && Good(t) && Removed(s, t, a, n, release) && a + n <= USER_PAGES
    requires f in s.tables && j < |s.tables[f]| && s.tables[f][j].Entry? && !Within(s, a, a + n, f, j)
    ensures f in t.tables && j < |t.tables[f]| && t.tables[f][j] == s.tables[f][j]
  {
    if Names(s.dir, f) {
      var i :| 0 <= i < |s.dir| && i < USER_TABLES && s.dir[i].Entry? && s.dir[i].frame == f;
      var v := i * PER_TABLE + j;
      assert v / PER_TABLE == i && v % PER_TABLE == j;
      assert At(s, v, f, j);
      assert Look(s.dir, s.tables, v) == s.tables[f][j];
      assert Look(t.dir, t.tables, v) == s.tables[f][j];
      assert t.dir[i] == s.dir[i];
    }
  }

  lemma UnmappedReady(s: State, t: State, a: nat, n: nat)
    requires Ready(s) && Good(t) && Removed(s, t, a, n, true) && a + n <= USER_PAGES
    ensures Ready(t) <==> Alone(s, a, a + n)
  {
    if Alone(s, a, a + n) {
      forall f, j | f in t.tables && 0 <= j < |t.tables[f]|
        && t.tables[f][j].Entry? ensures t.tables[f][j].frame !in t.free {
        AloneLive(s, t, a, n, f, j);
      }
      hide Alone, Unmapped, Good;
    } else {
      hide Within, Mapped;
      var f, j :| f in s.tables && 0 <= j < |s.tables[f]| && s.tables[f][j].Entry?
        && s.tables[f][j].frame in Mapped(s, a, a + n)
        && !Within(s, a, a + n, f, j);
      EntryStays(s, t, a, n, true, f, j);
      StillLive(s, t, a, n, true, f, j);
      hide Unmapped, Good;
    }
  }

  lemma AloneLive(s: State, t: State, a: nat, n: nat, f: nat, j: nat)
    requires Ready(s) && Good(t) && Removed(s, t, a, n, true) && a + n <= USER_PAGES && Alone(s, a, a + n)
    requires f in t.tables && 0 <= j < |t.tables[f]| && t.tables[f][j].Entry?
    ensures t.tables[f][j].frame !in t.free
  {
    hide Within, Mapped;
    StillLive(s, t, a, n, true, f, j);
    assert f in s.tables && s.tables[f][j] == t.tables[f][j];
    if t.tables[f][j].frame in Mapped(s, a, a + n) {
      RangeCleared(s, t, a, n, true, f, j);
    }
  }

  // --- sharing, and giving the shared pages back

  /** Every table has a page in it. */
  ghost predicate Tidy(s: State) {
    |s.dir| == PER_TABLE && forall i :: 0 <= i < USER_TABLES && s.dir[i].Entry? ==> HasPage(s, i)
  }

  /** A directory entry without a table has no page. */
  lemma NoPage(s: State, i: nat)
    requires i < |s.dir| && s.dir[i].Zero?
    ensures !HasPage(s, i)
  {
  }

  lemma SamePages(s: State, u: State, i: nat)
    requires i < USER_TABLES && forall v: nat :: v < USER_PAGES ==> Look(u.dir, u.tables, v) == Look(s.dir, s.tables, v)
    ensures HasPage(u, i) <==> HasPage(s, i)
  {
    assert forall v: nat :: v / PER_TABLE == i ==> v < USER_PAGES;
    hide Look;
  }

  /** Every translation is back. */
  lemma LooksBack(s: State, t: State, u: State, a: nat, b: nat)
    requires Grown(s, t, a, b) && Gone(t, u, a, b)
    requires forall v: nat :: a <= v < b ==> Look(s.dir, s.tables, v).Zero?
    ensures forall v: nat :: v < USER_PAGES ==> Look(u.dir, u.tables, v) == Look(s.dir, s.tables, v)
  {
    hide Look, OthersKept;
  }

  /** A directory entry is back: one that had a page kept its table, and a new table has none left. */
  lemma DirBack(s: State, t: State, u: State, a: nat, b: nat, hi: nat, i: nat)
    requires Grown(s, t, a, b) && Pruned(t, u, a / PER_TABLE, hi) && hi <= USER_TABLES && i < PER_TABLE
    requires NewWithin(s, t, a / PER_TABLE, hi) && Tidy(s)
    requires forall v: nat :: v < USER_PAGES ==> Look(u.dir, u.tables, v) == Look(s.dir, s.tables, v)
    ensures u.dir[i] == s.dir[i]
  {
    hide Look, OthersKept, HasPage;
    if i < USER_TABLES {
      if s.dir[i].Zero? {
        NoPage(s, i);
      }
      SamePages(s, u, i);
    }
  }

  /** The tables given up are the new ones. */
  lemma FreeBack(s: State, t: State, u: State, lo: nat, hi: nat)
    requires |s.dir| == |t.dir| == |u.dir| == PER_TABLE && u.dir == s.dir && NewWithin(s, t, lo, hi)
    ensures Emptied(t, u, lo, hi) == NewTables(s, t)
  {
  }

  /** A shared frame is mapped, and so neither free nor a table. */
  lemma SharedKept(s: State, t: State, src: seq<Pte>, a: nat, b: nat, writable: bool, v: nat)
    requires Attaching(s, t, src, a, b, writable) && a <= v < b
    ensures Look(src, s.tables, v).Entry? && Look(src, s.tables, v).frame !in t.free
    ensures Look(src, s.tables, v).frame !in NewTables(s, t)
  {
    hide Good, Live;
    assert Look(t.dir, t.tables, v) == Entry(Look(src, s.tables, v).frame, writable);
    SourceFrame(t, t.dir, v);
    NewAreTables(s, t);
    hide Look, Grown;
  }

  lemma NewAreTables(s: State, t: State)
    requires Good(t) && |s.dir| == |t.dir| == PER_TABLE
    requires forall i :: 0 <= i < PER_TABLE && i >= USER_TABLES ==> t.dir[i] == s.dir[i]
    ensures forall f :: f in NewTables(s, t) ==> f in t.tables
  {
  }

  /** Detaching what was attached where nothing was undoes it: every translation, the directory and the free
      frames are as they were, and the pages were never given up. */
  lemma AttachDetach(s: State, t: State, u: State, src: seq<Pte>, a: nat, n: nat, writable: bool)
    requires Attaching(s, t, src, a, a + n, writable) && Removed(t, u, a, n, false) && a + n <= USER_PAGES
    requires NewWithin(s, t, a / PER_TABLE, Past(a, n)) && Tidy(s)
    requires forall v: nat :: a <= v < a + n ==> Look(s.dir, s.tables, v).Zero?
    ensures forall v: nat :: v < USER_PAGES ==> Look(u.dir, u.tables, v) == Look(s.dir, s.tables, v)
    ensures forall v: nat :: a <= v < a + n ==> Look(src, s.tables, v).Entry? && Look(src, s.tables, v).frame !in u.free
    ensures u.dir == s.dir && u.free == s.free
  {
    hide Look, Grown, Gone, Pruned, OthersKept, Fewer, Shared, Ready, Tidy, NewWithin, Past, NewTables, Emptied;
    RangeEnds(a, n);
    LooksBack(s, t, u, a, a + n);
    DirsLong(s, t, u, a, a + n, Past(a, n));
    forall i | 0 <= i < PER_TABLE ensures u.dir[i] == s.dir[i] {
      DirBack(s, t, u, a, a + n, Past(a, n), i);
    }
    FreeBack(s, t, u, a / PER_TABLE, Past(a, n));
    forall v: nat | a <= v < a + n ensures Look(src, s.tables, v).Entry? && Look(src, s.tables, v).frame !in u.free {
      SharedKept(s, t, src, a, a + n, writable, v);
    }
  }

  lemma DirsLong(s: State, t: State, u: State, a: nat, b: nat, hi: nat)
    requires Grown(s, t, a, b) && Pruned(t, u, a / PER_TABLE, hi)
    ensures |s.dir| == |t.dir| == |u.dir| == PER_TABLE
  {
  }

  // --- what there must be free

  /** The directory entries of a range that have no table yet. */
  function Missing(dir: seq<Pte>, lo: nat, hi: nat): set<nat> {
    set i: nat | lo <= i < hi && i < |dir| && dir[i].Zero?
  }

  /** The pages of a range that are not there. */
  function Absent(s: State, a: nat, b: nat): set<nat> {
    set v: nat | a <= v < b && Look(s.dir, s.tables, v).Zero?
  }

  /** Every page of the range is there, or none is. */
  predicate AllThere(dir: seq<Pte>, tables: map<nat, seq<Pte>>, a: nat, b: nat) {
    forall v: nat :: a <= v < b ==> Look(dir, tables, v).Entry?
  }

  predicate Vacant(dir: seq<Pte>, tables: map<nat, seq<Pte>>, a: nat, b: nat) {
    forall v: nat :: a <= v < b ==> Look(dir, tables, v).Zero?
  }

  ghost function NewAt(s: State, t: State): set<nat> {
    set i: nat | i < |s.dir| && i < |t.dir| && s.dir[i].Zero? && t.dir[i].Entry?
  }

  ghost function FramesAt(dir: seq<Pte>, at: set<nat>): set<nat> {
    set i | i in at && i < |dir| && dir[i].Entry? :: dir[i].frame
  }

  lemma {:induction false} FramesFew(dir: seq<Pte>, at: set<nat>)
    requires forall i :: i in at ==> i < |dir| && dir[i].Entry?
    ensures |FramesAt(dir, at)| <= |at|
    ensures (forall i, k :: i in at && k in at && dir[i].frame == dir[k].frame ==> i == k) ==>
      |FramesAt(dir, at)| == |at|
    decreases |at|
  {
    if at == {} {
      assert FramesAt(dir, at) == {};
    } else {
      var i :| i in at;
      FramesFew(dir, at - {i});
      assert FramesAt(dir, at) == FramesAt(dir, at - {i}) + {dir[i].frame};
    }
  }

  lemma NewFew(s: State, t: State)
    requires |s.dir| == |t.dir| == PER_TABLE
    ensures |NewTables(s, t)| <= |NewAt(s, t)|
    ensures Proper(t.dir, t.tables) && (forall i :: i in NewAt(s, t) ==> i < USER_TABLES) ==>
      |NewTables(s, t)| == |NewAt(s, t)|
  {
    assert NewTables(s, t) == FramesAt(t.dir, NewAt(s, t));
    FramesFew(t.dir, NewAt(s, t));
  }

  lemma SubsetSize<T>(a: set<T>, b: set<T>)
    requires a <= b
    ensures |a| <= |b|
  {
    assert b == a + (b - a);
  }

  /** New tables are fewer than the entries that still lack one had them. */
  lemma NewBelow(s: State, t: State, lo: nat, hi: nat)
    requires |s.dir| == |t.dir| == PER_TABLE && NewWithin(s, t, lo, hi)
    ensures |NewTables(s, t)| <= |Missing(s.dir, lo, hi)|
  {
    NewFew(s, t);
    SubsetSize(NewAt(s, t), Missing(s.dir, lo, hi));
  }

  lemma MissingMore(dir: seq<Pte>, lo: nat, i: nat, hi: nat)
    requires lo <= i < hi && i < |dir| && dir[i].Zero?
    ensures |Missing(dir, lo, i)| < |Missing(dir, lo, hi)|
  {
    SubsetSize(Missing(dir, lo, i) + {i}, Missing(dir, lo, hi));
  }

  /** Once every entry of the range has a table, those that had none have new ones. */
  lemma NewAll(s: State, t: State, a: nat, b: nat, lo: nat, hi: nat)
    requires Grown(s, t, a, b) && Good(t) && hi <= USER_TABLES && NewWithin(s, t, lo, hi)
    requires forall i :: lo <= i < hi ==> t.dir[i].Entry?
    ensures |NewTables(s, t)| == |Missing(s.dir, lo, hi)|
  {
    assert NewAt(s, t) == Missing(s.dir, lo, hi) by { hide Look, OthersKept; }
    assert forall i :: i in NewAt(s, t) ==> i < USER_TABLES;
    hide Grown, Look;
    NewFew(s, t);
  }

  /** A page that is there has a table. */
  lemma RowsThere(t: State, a: nat, n: nat)
    requires AllThere(t.dir, t.tables, a, a + n) && a + n <= USER_PAGES && |t.dir| == PER_TABLE
    ensures Past(a, n) <= USER_TABLES && forall i :: a / PER_TABLE <= i < Past(a, n) ==> t.dir[i].Entry?
  {
    RangeEnds(a, n);
    forall i | a / PER_TABLE <= i < Past(a, n) ensures t.dir[i].Entry? {
      var v := if i * PER_TABLE < a then a else i * PER_TABLE;
      assert v / PER_TABLE == i && a <= v < a + n;
      assert Look(t.dir, t.tables, v).Entry?;
    }
  }

  lemma AttachLacks(s: State, t: State, src: seq<Pte>, a: nat, b: nat, writable: bool, i: nat, hi: nat)
    requires Attaching(s, t, src, a, b, writable) && NewWithin(s, t, a / PER_TABLE, i) && t.free == {}
    requires a / PER_TABLE <= i < hi && i < |t.dir| && t.dir[i].Zero?
    ensures |s.free| < |Missing(s.dir, a / PER_TABLE, hi)|
  {
    hide Look, Ready, Shared, Missing, NewWithin, OthersKept;
    NewBelow(s, t, a / PER_TABLE, i);
    MissingMore(s.dir, a / PER_TABLE, i, hi);
    assert s.free == NewTables(s, t);
  }

  lemma AttachHad(s: State, t: State, src: seq<Pte>, a: nat, n: nat, writable: bool)
    requires Attaching(s, t, src, a, a + n, writable) && NewWithin(s, t, a / PER_TABLE, Past(a, n))
    requires a + n <= USER_PAGES
    ensures AllThere(src, s.tables, a, a + n) && |Missing(s.dir, a / PER_TABLE, Past(a, n))| <= |s.free|
  {
    assert |t.dir| == PER_TABLE by { hide Look, OthersKept; }
    hide Look, Grown, NewWithin, Missing, Past, Live;
    assert AllThere(t.dir, t.tables, a, a + n);
    RowsThere(t, a, n);
    NewAll(s, t, a, a + n, a / PER_TABLE, Past(a, n));
    SubsetSize(NewTables(s, t), s.free);
  }

  /** A page looked at first is as it was. */
  lemma FirstLook(s: State, m: State, a: nat, b: nat, src: seq<Pte>)
    requires Grown(s, m, a, b) && a <= b < USER_PAGES && Source(s, src)
    ensures Look(m.dir, m.tables, b) == Look(s.dir, s.tables, b) && Look(src, m.tables, b) == Look(src, s.tables, b)
  {
    GrownAt(s, m, a, b);
    SourceSame(s, m, src, a, b, b);
  }

  lemma VacantMore(dir: seq<Pte>, tables: map<nat, seq<Pte>>, a: nat, b: nat)
    requires Vacant(dir, tables, a, b) && Look(dir, tables, b).Zero?
    ensures Vacant(dir, tables, a, b + 1)
  {
    hide Look;
  }

  lemma NotThere(dir: seq<Pte>, tables: map<nat, seq<Pte>>, a: nat, b: nat, v: nat)
    requires a <= v < b
    ensures Look(dir, tables, v).Zero? ==> !AllThere(dir, tables, a, b)
    ensures Look(dir, tables, v).Entry? ==> !Vacant(dir, tables, a, b)
  {
    hide Look;
  }

  lemma RowEmpty(dir: seq<Pte>, tables: map<nat, seq<Pte>>, v: nat)
    requires v / PER_TABLE < |dir| && dir[v / PER_TABLE].Zero?
    ensures Look(dir, tables, v).Zero?
  {
  }

  lemma VacantNone(dir: seq<Pte>, tables: map<nat, seq<Pte>>, a: nat)
    ensures Vacant(dir, tables, a, a)
  {
  }

  lemma Shorter(dir: seq<Pte>, tables: map<nat, seq<Pte>>, a: nat, b: nat, c: nat)
    requires b <= c
    ensures AllThere(dir, tables, a, c) ==> AllThere(dir, tables, a, b)
    ensures Vacant(dir, tables, a, c) ==> Vacant(dir, tables, a, b)
  {
    hide Look;
  }

  lemma RowOf(i: nat, j: nat, v: nat)
    requires v == i * PER_TABLE + j && j < PER_TABLE
    ensures v / PER_TABLE == i && v % PER_TABLE == j
  {
  }

  lemma NewWithinNone(s: State, lo: nat)
    ensures NewWithin(s, s, lo, lo)
  {
  }

  lemma NewWithinMore(s: State, m: State, lo: nat, i: nat, f: nat)
    requires NewWithin(s, m, lo, i) && lo <= i < |m.dir| && |s.dir| == |m.dir|
    ensures NewWithin(s, m, lo, i + 1) && NewWithin(s, WithTable(m, i, f), lo, i + 1)
  {
  }

  lemma NewWithinSame(s: State, t: State, u: State, lo: nat, hi: nat)
    requires NewWithin(s, t, lo, hi) && t.dir == u.dir
    ensures NewWithin(s, u, lo, hi)
  {
  }

  lemma {:induction false} MappedFew(t: State, a: nat, b: nat)
    requires a <= b
    ensures |Mapped(t, a, b)| <= b - a
    ensures AllThere(t.dir, t.tables, a, b) && Distinct(t, a, b) ==> |Mapped(t, a, b)| == b - a
    decreases b
  {
    hide Look;
    if a == b {
      assert Mapped(t, a, b) == {};
    } else {
      MappedFew(t, a, b - 1);
      if Look(t.dir, t.tables, b - 1).Entry? {
        MappedPlus(t, a, b - 1);
      } else {
        assert Mapped(t, a, b) == Mapped(t, a, b - 1);
      }
    }
  }

  /** Pages are no tables. */
  lemma PagesNoTables(s: State, t: State, a: nat, b: nat, c: nat, d: nat)
    requires Good(t) && Grown(s, t, c, d)
    ensures NewTables(s, t) !! Mapped(t, a, b)
  {
    assert |s.dir| == |t.dir| == PER_TABLE && forall i :: USER_TABLES <= i < PER_TABLE ==> t.dir[i] == s.dir[i] by {
      hide Look, OthersKept;
    }
    NewAreTables(s, t);
    forall f | f in Mapped(t, a, b) ensures f !in t.tables {
      var v :| a <= v < b && Look(t.dir, t.tables, v).Entry? && Look(t.dir, t.tables, v).frame == f;
      hide Grown;
    }
    hide Grown, Good, Mapped, NewTables;
  }

  lemma UnionSize<T>(a: set<T>, b: set<T>)
    ensures |a + b| <= |a| + |b|
    ensures a !! b ==> |a + b| == |a| + |b|
  {
    assert a + b == a + (b - a);
    SubsetSize(b - a, b);
    assert a !! b ==> b - a == b;
  }

  lemma MissingSome(dir: seq<Pte>, lo: nat, i: nat, hi: nat)
    requires i <= hi
    ensures |Missing(dir, lo, i)| <= |Missing(dir, lo, hi)|
  {
    SubsetSize(Missing(dir, lo, i), Missing(dir, lo, hi));
  }

  /** Nothing is left, and a table or a page is still to be had. */
  lemma CopyLacks(s: State, t: State, src: seq<Pte>, pages0: map<nat, Page>, pages: map<nat, Page>, a: nat, b: nat,
                  writable: bool, top: nat, i: nat, n: nat)
    requires Copying(s, t, src, pages0, pages, a, b, writable) && NewWithin(s, t, a / PER_TABLE, top) && t.free == {}
    requires i <= top <= i + 1 && i < Past(a, n) && b <= a + n && n > 0
    requires (b < a + n && top == i + 1) || (top == i && a / PER_TABLE <= i < |t.dir| && t.dir[i].Zero?)
    ensures |Missing(s.dir, a / PER_TABLE, Past(a, n))| + n > |s.free|
  {
    var hi := Past(a, n);
    hide Look, Fresh, Distinct, Undisturbed, Missing, NewWithin, Past, Mapped, NewTables, Ready, OthersKept;
    NewBelow(s, t, a / PER_TABLE, top);
    UnionSize(NewTables(s, t), Mapped(t, a, b));
    assert s.free == NewTables(s, t) + Mapped(t, a, b);
    if a <= b {
      MappedFew(t, a, b);
    } else {
      MappedNone(t, a, b);
    }
    if top == i {
      MissingMore(s.dir, a / PER_TABLE, i, hi);
    } else {
      MissingSome(s.dir, a / PER_TABLE, top, hi);
    }
  }

  lemma MappedNone(t: State, a: nat, b: nat)
    requires b <= a
    ensures |Mapped(t, a, b)| == 0
  {
    assert Mapped(t, a, b) == {};
  }

  lemma CopyParts(s: State, t: State, src: seq<Pte>, pages0: map<nat, Page>, pages: map<nat, Page>, a: nat, b: nat,
                  writable: bool)
    requires Copying(s, t, src, pages0, pages, a, b, writable)
    ensures Good(t) && Grown(s, t, a, b) && Distinct(t, a, b) && |t.dir| == PER_TABLE
    ensures s.free == t.free + NewTables(s, t) + Mapped(t, a, b)
  {
    hide Look, Distinct, Fresh, Undisturbed, OthersKept, Mapped, NewTables, Live, Apart;
  }

  lemma CopyThere(s: State, t: State, src: seq<Pte>, pages0: map<nat, Page>, pages: map<nat, Page>, a: nat, b: nat,
                  writable: bool)
    requires Fresh(s, t, src, pages0, pages, a, b, writable)
    ensures AllThere(t.dir, t.tables, a, b) && AllThere(src, s.tables, a, b)
  {
    hide Look, PageOf;
  }

  lemma CopyHad(s: State, t: State, src: seq<Pte>, pages0: map<nat, Page>, pages: map<nat, Page>, a: nat, n: nat,
                writable: bool)
    requires Copying(s, t, src, pages0, pages, a, a + n, writable) && NewWithin(s, t, a / PER_TABLE, Past(a, n))
    requires a + n <= USER_PAGES
    ensures AllThere(src, s.tables, a, a + n)
    ensures |Missing(s.dir, a / PER_TABLE, Past(a, n))| + n <= |s.free|
  {
    hide Look, Grown, NewWithin, Missing, Past, Ready, Good, Fresh, Mapped, NewTables, Undisturbed, AllThere, Distinct;
    CopyParts(s, t, src, pages0, pages, a, a + n, writable);
    CopyThere(s, t, src, pages0, pages, a, a + n, writable);
    hide Copying;
    RowsThere(t, a, n);
    NewAll(s, t, a, a + n, a / PER_TABLE, Past(a, n));
    MappedFew(t, a, a + n);
    PagesNoTables(s, t, a, a + n, a, a + n);
    UnionSize(NewTables(s, t), Mapped(t, a, a + n));
    SubsetSize(NewTables(s, t) + Mapped(t, a, a + n), s.free);
  }

  lemma FirstPage(s: State, m: State, pages0: map<nat, Page>, pages: map<nat, Page>, a: nat, b: nat, writable: bool)
    requires Mapping(s, m, pages0, pages, a, b, writable) && b < USER_PAGES
    ensures Look(m.dir, m.tables, b) == Look(s.dir, s.tables, b)
  {
    GrownAt(s, m, a, b);
  }

  lemma AddedStep(s: State, t: State, a: nat, c: nat)
    requires a <= c
    ensures Look(s.dir, s.tables, c).Zero? ==>
      c !in Absent(s, a, c) && Absent(s, a, c + 1) == Absent(s, a, c) + {c}
    ensures Look(s.dir, s.tables, c).Zero? && Look(t.dir, t.tables, c).Entry? ==>
      Added(s, t, a, c + 1) == Added(s, t, a, c) + {Look(t.dir, t.tables, c).frame}
    ensures Look(s.dir, s.tables, c).Entry? ==> Absent(s, a, c + 1) == Absent(s, a, c)
    ensures Look(s.dir, s.tables, c).Entry? || Look(t.dir, t.tables, c).Zero? ==>
      Added(s, t, a, c + 1) == Added(s, t, a, c)
  {
    hide Look;
  }

  lemma AddedNew(s: State, t: State, a: nat, c: nat)
    requires a <= c && AddedOnce(s, t, a, c + 1) && Look(s.dir, s.tables, c).Zero? && Look(t.dir, t.tables, c).Entry?
    ensures Look(t.dir, t.tables, c).frame !in Added(s, t, a, c)
  {
    hide Look;
  }

  lemma AddedPrefix(s: State, t: State, a: nat, c: nat)
    ensures AddedOnce(s, t, a, c + 1) ==> AddedOnce(s, t, a, c)
    ensures AllThere(t.dir, t.tables, a, c + 1) ==> AllThere(t.dir, t.tables, a, c)
    ensures a <= c && AllThere(t.dir, t.tables, a, c + 1) ==> Look(t.dir, t.tables, c).Entry?
  {
    hide Look;
  }

  /** No more pages were added than were not there, and as many if all are there now, each with its own frame. */
  ghost predicate AddedRight(s: State, t: State, a: nat, b: nat) {
    && |Added(s, t, a, b)| <= |Absent(s, a, b)|
    && (AllThere(t.dir, t.tables, a, b) && AddedOnce(s, t, a, b) ==> |Added(s, t, a, b)| == |Absent(s, a, b)|)
  }

  lemma AddedNone(s: State, t: State, a: nat, b: nat)
    requires b <= a
    ensures AddedRight(s, t, a, b)
  {
    hide Look;
    assert Added(s, t, a, b) == {} && Absent(s, a, b) == {};
  }

  lemma AddedMore(s: State, t: State, a: nat, c: nat)
    requires a <= c && AddedRight(s, t, a, c)
    ensures AddedRight(s, t, a, c + 1)
  {
    hide Look, Added, Absent, AllThere, AddedOnce;
    AddedStep(s, t, a, c);
    AddedPrefix(s, t, a, c);
    if AddedOnce(s, t, a, c + 1) && Look(s.dir, s.tables, c).Zero? && Look(t.dir, t.tables, c).Entry? {
      AddedNew(s, t, a, c);
    }
  }

  lemma {:induction false} AddedFew(s: State, t: State, a: nat, b: nat)
    ensures AddedRight(s, t, a, b)
    decreases b
  {
    hide AddedRight;
    if b <= a {
      AddedNone(s, t, a, b);
    } else {
      AddedFew(s, t, a, b - 1);
      AddedMore(s, t, a, b - 1);
    }
  }

  lemma AbsentMore(s: State, a: nat, b: nat, c: nat)
    requires b <= c
    ensures |Absent(s, a, b)| <= |Absent(s, a, c)|
    ensures a <= b < c && Look(s.dir, s.tables, b).Zero? ==> |Absent(s, a, b)| < |Absent(s, a, c)|
  {
    hide Look;
    SubsetSize(Absent(s, a, b), Absent(s, a, c));
    if a <= b < c && Look(s.dir, s.tables, b).Zero? {
      SubsetSize(Absent(s, a, b) + {b}, Absent(s, a, c));
    }
  }

  lemma MapLacks(s: State, t: State, pages0: map<nat, Page>, pages: map<nat, Page>, a: nat, b: nat, writable: bool,
                 top: nat, i: nat, n: nat)
    requires Mapping(s, t, pages0, pages, a, b, writable) && NewWithin(s, t, a / PER_TABLE, top) && t.free == {}
    requires i <= top <= i + 1 && i < Past(a, n) && b <= a + n
    requires (a <= b < a + n && top == i + 1 && Look(s.dir, s.tables, b).Zero?)
      || (top == i && a / PER_TABLE <= i < |t.dir| && t.dir[i].Zero?)
    ensures |Missing(s.dir, a / PER_TABLE, Past(a, n))| + |Absent(s, a, a + n)| > |s.free|
  {
    var hi := Past(a, n);
    hide Look, Present, AddedOnce, Undisturbed, Missing, NewWithin, Past, Added, NewTables, Ready, OthersKept, Absent;
    NewBelow(s, t, a / PER_TABLE, top);
    UnionSize(NewTables(s, t), Added(s, t, a, b));
    assert s.free == NewTables(s, t) + Added(s, t, a, b);
    AddedFew(s, t, a, b);
    AbsentMore(s, a, b, a + n);
    if top == i {
      MissingMore(s.dir, a / PER_TABLE, i, hi);
    } else {
      MissingSome(s.dir, a / PER_TABLE, top, hi);
    }
  }

  lemma MapParts(s: State, t: State, pages0: map<nat, Page>, pages: map<nat, Page>, a: nat, b: nat, writable: bool)
    requires Mapping(s, t, pages0, pages, a, b, writable)
    ensures Good(t) && Grown(s, t, a, b) && AddedOnce(s, t, a, b) && |t.dir| == PER_TABLE
    ensures s.free == t.free + NewTables(s, t) + Added(s, t, a, b)
  {
    hide Look, AddedOnce, Present, Undisturbed, OthersKept, Added, NewTables, Live, Apart;
  }

  lemma MapThere(s: State, t: State, pages: map<nat, Page>, a: nat, b: nat, writable: bool)
    requires Present(s, t, pages, a, b, writable)
    ensures AllThere(t.dir, t.tables, a, b)
  {
    hide Look, PageOf;
  }

  lemma AddedMapped(s: State, t: State, a: nat, b: nat)
    ensures Added(s, t, a, b) <= Mapped(t, a, b)
  {
    hide Look;
  }

  lemma MapHad(s: State, t: State, pages0: map<nat, Page>, pages: map<nat, Page>, a: nat, n: nat, writable: bool)
    requires Mapping(s, t, pages0, pages, a, a + n, writable) && NewWithin(s, t, a / PER_TABLE, Past(a, n))
    requires a + n <= USER_PAGES
    ensures |Missing(s.dir, a / PER_TABLE, Past(a, n))| + |Absent(s, a, a + n)| <= |s.free|
  {
    hide Look, Grown, NewWithin, Missing, Past, Ready, Good, Present, Mapped, Added, NewTables, Undisturbed, AllThere;
    hide AddedOnce, Absent;
    MapParts(s, t, pages0, pages, a, a + n, writable);
    MapThere(s, t, pages, a, a + n, writable);
    hide Mapping;
    RowsThere(t, a, n);
    NewAll(s, t, a, a + n, a / PER_TABLE, Past(a, n));
    AddedFew(s, t, a, a + n);
    AddedMapped(s, t, a, a + n);
    PagesNoTables(s, t, a, a + n, a, a + n);
    UnionSize(NewTables(s, t), Added(s, t, a, a + n));
    SubsetSize(NewTables(s, t) + Added(s, t, a, a + n), s.free);
  }

  /** Where the rows of a range end. */
  lemma PastRow(a: nat, n: nat, i: nat, j: nat)
    requires a <= i * PER_TABLE + j < a + n && j < PER_TABLE
    ensures a / PER_TABLE <= i < Past(a, n) && (a + n <= i * PER_TABLE + PER_TABLE ==> Past(a, n) == i + 1)
  {
  }

  lemma PastNone(a: nat)
    ensures Past(a, 0) == a / PER_TABLE
  {
  }
}
