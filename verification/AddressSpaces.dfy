/** Several address spaces over the same memory: what is done to one of them leaves the others alone. */
module AddressSpaces {
  import opened PageTables

  /** Two directories name no table in common. */
  ghost predicate Disjoint(d: seq<Pte>, e: seq<Pte>) {
    forall f :: Names(d, f) ==> !Names(e, f)
  }

  ghost predicate Separate(dirs: seq<seq<Pte>>, tables: map<nat, seq<Pte>>) {
    && (forall p :: 0 <= p < |dirs| ==> Proper(dirs[p], tables))
    && forall p, q :: 0 <= p < |dirs| && 0 <= q < |dirs| && p != q ==> Disjoint(dirs[p], dirs[q])
  }

  /** Every page is where it was, with what it held. */
  ghost predicate SameView(d: seq<Pte>, tables0: map<nat, seq<Pte>>, pages0: map<nat, Page>,
                           tables: map<nat, seq<Pte>>, pages: map<nat, Page>) {
    forall v: nat :: v < USER_PAGES ==>
      && Look(d, tables, v) == Look(d, tables0, v)
      && (Look(d, tables0, v).Entry? ==>
            PageOf(pages, Look(d, tables0, v).frame) == PageOf(pages0, Look(d, tables0, v).frame))
  }

  lemma ApartIsSource(s: State, d: seq<Pte>)
    requires Proper(d, s.tables) && Disjoint(d, s.dir)
    ensures Source(s, d)
  {
    forall i | 0 <= i < USER_TABLES && d[i].Entry? ensures !Names(s.dir, d[i].frame) {
      assert Names(d, d[i].frame);
    }
    hide Names;
  }

  /** A directory that shares no table with the one worked on still shares none, and its tables are as they were. */
  lemma Bystander(s: State, t: State, d: seq<Pte>)
    requires Apart(s.free, s.tables) && Proper(d, s.tables) && Disjoint(d, s.dir) && Confined(s, t)
    ensures Proper(d, t.tables) && Disjoint(d, t.dir) && Disjoint(t.dir, d)
    ensures forall v: nat :: v < USER_PAGES ==> Look(d, t.tables, v) == Look(d, s.tables, v)
  {
    ApartIsSource(s, d);
    forall f | Names(d, f) ensures !Names(t.dir, f) && f in s.tables {
      assert f in s.tables && f !in s.free;
    }
    forall i | 0 <= i < USER_TABLES && d[i].Entry?
      ensures d[i].frame in t.tables && t.tables[d[i].frame] == s.tables[d[i].frame]
    {
      assert Names(d, d[i].frame);
    }
    hide Names;
  }

  lemma BystanderView(s: State, t: State, d: seq<Pte>, pages0: map<nat, Page>, pages: map<nat, Page>)
    requires Ready(s) && Proper(d, s.tables) && Disjoint(d, s.dir) && Confined(s, t) && Undisturbed(s, pages0, pages)
    ensures SameView(d, s.tables, pages0, t.tables, pages)
  {
    Bystander(s, t, d);
    forall v: nat | v < USER_PAGES && Look(d, s.tables, v).Entry?
      ensures PageOf(pages, Look(d, s.tables, v).frame) == PageOf(pages0, Look(d, s.tables, v).frame)
    {
      SourceFrame(s, d, v);
    }
    hide Look, PageOf, Confined, Ready, Disjoint, Proper;
  }

  lemma StaySeparate(dirs: seq<seq<Pte>>, p: nat, s: State, t: State)
    requires p < |dirs| && dirs[p] == s.dir && Apart(s.free, s.tables) && Good(t) && Separate(dirs, s.tables)
    requires Confined(s, t)
    ensures Separate(dirs[p := t.dir], t.tables)
  {
    hide Confined, Disjoint, Proper, Apart;
    forall q | 0 <= q < |dirs| && q != p
      ensures Proper(dirs[q], t.tables) && Disjoint(dirs[q], t.dir) && Disjoint(t.dir, dirs[q])
    {
      Bystander(s, t, dirs[q]);
    }
    GoodParts(t);
  }

  lemma GoodParts(t: State)
    requires Good(t)
    ensures Proper(t.dir, t.tables) && Apart(t.free, t.tables)
  {
  }

  datatype Event =
    | Maps(space: nat, addr: nat, n: nat, writable: bool)
    | Attaches(space: nat, src: nat, addr: nat, n: nat, writable: bool)
    | Copies(space: nat, src: nat, addr: nat, n: nat, writable: bool)
    | Unmaps(space: nat, addr: nat, n: nat)
    | Detaches(space: nat, addr: nat, n: nat)

  class Spaces {
    const memory: Memory
    const all: seq<Space>

    ghost function Dirs(): (d: seq<seq<Pte>>)
      reads all
      ensures |d| == |all| && forall p :: 0 <= p < |all| ==> d[p] == all[p].dir
    {
      seq(|all|, p requires 0 <= p < |all| reads all => all[p].dir)
    }

    ghost predicate Valid()
      reads memory, all
    {
      && (forall p, q :: 0 <= p < q < |all| ==> all[p] != all[q])
      && Apart(memory.free, memory.tables) && Live(memory.free, memory.tables) && Separate(Dirs(), memory.tables)
    }

    /** At first no space has a user page. */
    constructor (frames: set<nat>, all: seq<Space>)
      requires 0 !in frames && forall p, q :: 0 <= p < q < |all| ==> all[p] != all[q]
      requires forall p :: 0 <= p < |all| ==>
        |all[p].dir| == PER_TABLE && forall i :: 0 <= i < USER_TABLES ==> all[p].dir[i].Zero?
      ensures Valid() && this.all == all
    {
      this.all := all;
      memory := new Memory(frames);
    }

    /** What the caller must respect: pages that are freed are not mapped elsewhere. */
    predicate Respects(e: Event)
      reads memory, all
    {
      && e.space < |all|
      && match e
         case Maps(_, addr, n, _) => addr / 4096 + n <= USER_PAGES
         case Attaches(space, src, _, _, _) => src < |all| && src != space
         case Copies(space, src, _, _, _) => src < |all| && src != space
         case Unmaps(space, addr, n) =>
           InUser(addr, n) ==> Alone(memory.StateOf(all[space]), addr / 4096, addr / 4096 + n)
         case Detaches(_, _, _) => true
    }

    method Change(e: Event)
      requires Valid() && Respects(e)
      modifies memory, all[e.space]
      ensures Ready(memory.StateOf(all[e.space]))
      ensures Confined(old(memory.StateOf(all[e.space])), memory.StateOf(all[e.space]))
      ensures Undisturbed(old(memory.StateOf(all[e.space])), old(memory.pages), memory.pages)
    {
      hide Apart, Live, Separate, Confined, Undisturbed, Alone, InUser, Attaching, Copying, Mapping, Unmapped,
        NewWithin, Look, Source;
      ghost var s := memory.StateOf(all[e.space]);
      SpaceReady(Dirs(), e.space, s);
      UndisturbedSelf(s, memory.pages);
      match e {
        case Maps(space, addr, n, writable) =>
          var _ := memory.Map(all[space], addr, n, writable);
        case Attaches(space, src, addr, n, writable) =>
          SpaceSource(Dirs(), space, src, s);
          var _ := memory.Attach(all[space], all[src], addr, n, writable);
        case Copies(space, src, addr, n, writable) =>
          SpaceSource(Dirs(), space, src, s);
          var _ := memory.Copy(all[space], all[src], addr, n, writable);
        case Unmaps(space, addr, n) =>
          var _ := memory.Unmap(all[space], addr, n);
        case Detaches(space, addr, n) =>
          var _ := memory.Detach(all[space], addr, n);
      }
    }

    /** One call: the other spaces see the same pages, with the same contents. */
    method Do(e: Event)
      requires Valid() && Respects(e)
      modifies memory, all
      ensures Valid()
      ensures forall q :: 0 <= q < |all| && q != e.space ==>
        && all[q].dir == old(all[q].dir)
        && SameView(all[q].dir, old(memory.tables), old(memory.pages), memory.tables, memory.pages)
    {
      hide Apart, Live, Separate, Proper, Confined, Undisturbed, SameView, Ready, Disjoint;
      ghost var s, pages0, dirs := memory.StateOf(all[e.space]), memory.pages, Dirs();
      SpaceReady(dirs, e.space, s);
      Change(e);
      ghost var t := memory.StateOf(all[e.space]);
      ReadyParts(t);
      assert Dirs() == dirs[e.space := t.dir];
      StaySeparate(dirs, e.space, s, t);
      forall q | 0 <= q < |all| && q != e.space
        ensures SameView(all[q].dir, s.tables, pages0, t.tables, memory.pages)
      {
        SpaceApart(dirs, e.space, q, s);
        BystanderView(s, t, dirs[q], pages0, memory.pages);
      }
    }

    /** Over any run the spaces share no table, no mapped page is free, and a space that nothing was done to sees
        every page where it was, with what it held. */
    method Run(events: seq<Event>)
      requires Valid()
      modifies memory, all
      ensures Valid()
      ensures forall q :: 0 <= q < |all| && Untouched(events, q) ==>
        && all[q].dir == old(all[q].dir)
        && SameView(all[q].dir, old(memory.tables), old(memory.pages), memory.tables, memory.pages)
    {
      hide Valid, SameView, Respects;
      forall q | 0 <= q < |all| ensures SameView(all[q].dir, memory.tables, memory.pages, memory.tables, memory.pages) {
        SameSelf(all[q].dir, memory.tables, memory.pages);
      }
      ghost var dirs, tables0, pages0 := Dirs(), memory.tables, memory.pages;
      for i := 0 to |events|
        invariant Valid()
        invariant forall q :: 0 <= q < |all| && Untouched(events, q) ==>
          && all[q].dir == dirs[q]
          && SameView(dirs[q], tables0, pages0, memory.tables, memory.pages)
        modifies memory, all
      {
        if Respects(events[i]) {
          ghost var tables1, pages1 := memory.tables, memory.pages;
          Do(events[i]);
          forall q | 0 <= q < |all| && Untouched(events, q)
            ensures SameView(dirs[q], tables0, pages0, memory.tables, memory.pages)
          {
            SameTrans(dirs[q], tables0, pages0, tables1, pages1, memory.tables, memory.pages);
          }
        }
      }
    }
  }

  ghost predicate Untouched(events: seq<Event>, q: nat) {
    forall i :: 0 <= i < |events| ==> events[i].space != q
  }

  lemma SameSelf(d: seq<Pte>, tables: map<nat, seq<Pte>>, pages: map<nat, Page>)
    ensures SameView(d, tables, pages, tables, pages)
  {
  }

  lemma SameTrans(d: seq<Pte>, tables0: map<nat, seq<Pte>>, pages0: map<nat, Page>, tables1: map<nat, seq<Pte>>,
                  pages1: map<nat, Page>, tables: map<nat, seq<Pte>>, pages: map<nat, Page>)
    requires SameView(d, tables0, pages0, tables1, pages1) && SameView(d, tables1, pages1, tables, pages)
    ensures SameView(d, tables0, pages0, tables, pages)
  {
    hide Look, PageOf;
  }

  lemma SpaceReady(dirs: seq<seq<Pte>>, p: nat, s: State)
    requires Apart(s.free, s.tables) && Live(s.free, s.tables) && Separate(dirs, s.tables)
    requires p < |dirs| && dirs[p] == s.dir
    ensures Ready(s)
  {
    hide Apart, Live, Proper, Disjoint;
  }

  lemma SpaceApart(dirs: seq<seq<Pte>>, p: nat, q: nat, s: State)
    requires Separate(dirs, s.tables) && p < |dirs| && q < |dirs| && p != q && dirs[p] == s.dir
    ensures Proper(dirs[q], s.tables) && Disjoint(dirs[q], s.dir)
  {
  }

  lemma SpaceSource(dirs: seq<seq<Pte>>, p: nat, q: nat, s: State)
    requires Separate(dirs, s.tables) && p < |dirs| && q < |dirs| && p != q && dirs[p] == s.dir
    ensures Source(s, dirs[q])
  {
    SpaceApart(dirs, p, q, s);
    ApartIsSource(s, dirs[q]);
  }

  lemma ReadyParts(t: State)
    requires Ready(t)
    ensures Good(t) && Apart(t.free, t.tables) && Live(t.free, t.tables)
  {
  }
}
