/** The cells of the Scheme system and the collector that frees the unreachable ones. */
module SchemeHeap {
  const GC_THRESHOLD := 1024

  /** A word: an immediate (integer, opcode, relative reference) or a pointer to a cell. */
  datatype Value = Immediate(word: int) | Pointer(cell: nat)

  /** A cell by what the collector looks at; `Plain` has no children. The first words of code are its tables. */
  datatype Cell =
    | Pair(first: Value, rest: Value)
    | Lambda(code: Value, env: Value)
    | Indirect(key: Value, value: Value)
    | Code(vector: seq<Value>)
    | Vector(vector: seq<Value>)
    | Symbol(name: seq<nat>)
    | Procedure(id: nat)
    | Boolean(b: bool)
    | Plain(payload: int)

  const OFFSET_OPCODE := 4

  function Children(c: Cell): seq<Value> {
    match c
    case Pair(first, rest) => [first, rest]
    case Lambda(code, env) => [code, env]
    case Indirect(key, value) => [key, value]
    case Code(vector) => if |vector| >= OFFSET_OPCODE then vector[..OFFSET_OPCODE] else vector
    case Vector(vector) => vector
    case _ => []
  }

  datatype Frame = Frame(callee: Value, args: seq<Value>)

  ghost predicate Edge(cells: map<nat, Cell>, x: nat, y: nat) {
    x in cells && Pointer(y) in Children(cells[x])
  }

  ghost predicate Path(cells: map<nat, Cell>, p: seq<nat>) {
    |p| > 0 && forall i :: 0 <= i < |p| - 1 ==> Edge(cells, p[i], p[i + 1])
  }

  /** A pointer field of the cell leads to the other: both halves of a pair, a closure or an indirect cell, every
      word of a vector, and the tables of code but not its instructions. */
  ghost predicate Holds(c: Cell, y: nat) {
    match c
    case Pair(first, rest) => first == Pointer(y) || rest == Pointer(y)
    case Lambda(code, env) => code == Pointer(y) || env == Pointer(y)
    case Indirect(key, value) => key == Pointer(y) || value == Pointer(y)
    case Code(vector) => exists i :: 0 <= i < |vector| && i < OFFSET_OPCODE && vector[i] == Pointer(y)
    case Vector(vector) => exists i :: 0 <= i < |vector| && vector[i] == Pointer(y)
    case Symbol(_) => false
    case Procedure(_) => false
    case Boolean(_) => false
    case Plain(_) => false
  }

  lemma EdgeMeans(cells: map<nat, Cell>, x: nat, y: nat)
    ensures Edge(cells, x, y) <==> x in cells && Holds(cells[x], y)
  {
    if x in cells && cells[x].Code? && Holds(cells[x], y) {
      var i :| 0 <= i < |cells[x].vector| && i < OFFSET_OPCODE && cells[x].vector[i] == Pointer(y);
      assert Children(cells[x])[i] == Pointer(y);
    }
  }

  /** No pointer field of any cell dangles. */
  ghost predicate NoneDangles(cells: map<nat, Cell>) {
    forall x, y :: x in cells && Holds(cells[x], y) ==> y in cells
  }

  lemma ClosedMeans(cells: map<nat, Cell>)
    ensures ClosedIn(cells, cells.Keys, cells.Keys) <==> NoneDangles(cells)
  {
    forall x, y ensures Edge(cells, x, y) <==> x in cells && Holds(cells[x], y) {
      EdgeMeans(cells, x, y);
    }
    hide Edge, Holds;
  }

  /** A name, a protected cell, d1, or the callee or an argument of a frame that is looked at. */
  ghost predicate IsRoot(modules: seq<nat>, globals: seq<nat>, counts: map<nat, nat>, d1: Value, stack: seq<Frame>,
                         x: nat) {
    || x in modules || x in globals || x in counts || d1 == Pointer(x)
    || exists f :: f in stack && (f.callee == Pointer(x) || Pointer(x) in f.args)
  }

  lemma RootMeans(modules: seq<nat>, globals: seq<nat>, counts: map<nat, nat>, d1: Value, stack: seq<Frame>, x: nat)
    ensures x in RootsOf(modules, globals, counts, d1, stack) <==> IsRoot(modules, globals, counts, d1, stack, x)
  {
    if d1 == Pointer(x) {
      assert [d1][0] == Pointer(x);
    }
    if f :| f in stack && (f.callee == Pointer(x) || Pointer(x) in f.args) {
      assert Pointer(x) in [f.callee] + f.args;
    }
  }

  /** What is reachable and no start is held by another that is reachable. */
  lemma {:induction false} HeldByAnother(cells: map<nat, Cell>, from: set<nat>, p: seq<nat>)
    requires Path(cells, p) && p[0] in from && p[|p| - 1] !in from
    ensures exists y :: y != p[|p| - 1] && y in cells && Holds(cells[y], p[|p| - 1]) && Reachable(cells, from, y)
    decreases |p|
  {
    var n := |p| - 1;
    var x, y, q := p[n], p[n - 1], p[..n];
    assert Path(cells, q) && q[|q| - 1] == y;
    if y == x {
      HeldByAnother(cells, from, q);
    } else {
      assert Edge(cells, p[n - 1], p[n]);
      EdgeMeans(cells, y, x);
      assert Reachable(cells, from, y);
    }
  }

  /** A chain of pointers leads from one of the starting cells to the cell. */
  ghost predicate Reachable(cells: map<nat, Cell>, from: set<nat>, x: nat) {
    exists p :: Path(cells, p) && p[0] in from && p[|p| - 1] == x
  }

  lemma ReachSelf(cells: map<nat, Cell>, from: set<nat>, x: nat)
    requires x in from
    ensures Reachable(cells, from, x)
  {
    assert Path(cells, [x]);
  }

  lemma ReachStep(cells: map<nat, Cell>, from: set<nat>, x: nat, y: nat)
    requires Reachable(cells, from, x) && Edge(cells, x, y)
    ensures Reachable(cells, from, y)
  {
    var p :| Path(cells, p) && p[0] in from && p[|p| - 1] == x;
    var q := p + [y];
    assert Path(cells, q) && q[|q| - 1] == y;
  }

  lemma ReachMore(cells: map<nat, Cell>, from: set<nat>, more: set<nat>, x: nat)
    requires Reachable(cells, from, x) && from <= more
    ensures Reachable(cells, more, x)
  {
    var p :| Path(cells, p) && p[0] in from && p[|p| - 1] == x;
    assert Path(cells, p) && p[0] in more;
  }

  /** The children of every cell in the set are in it. */
  ghost predicate ClosedIn(cells: map<nat, Cell>, s: set<nat>, whole: set<nat>) {
    forall x, y :: x in s && Edge(cells, x, y) ==> y in whole
  }

  /** A closed set that holds the start holds all that is reachable from it. */
  lemma {:induction false} ClosedHolds(cells: map<nat, Cell>, s: set<nat>, p: seq<nat>, n: nat)
    requires ClosedIn(cells, s, s) && Path(cells, p) && p[0] in s && n < |p|
    ensures p[n] in s
  {
    if n > 0 {
      ClosedHolds(cells, s, p, n - 1);
      assert Edge(cells, p[n - 1], p[n]);
    }
  }

  lemma ClosedReach(cells: map<nat, Cell>, s: set<nat>, from: set<nat>, x: nat)
    requires ClosedIn(cells, s, s) && from <= s && Reachable(cells, from, x)
    ensures x in s
  {
    var p :| Path(cells, p) && p[0] in from && p[|p| - 1] == x;
    ClosedHolds(cells, s, p, |p| - 1);
  }

  function Pointers(vs: seq<Value>): set<nat> {
    set v | v in vs && v.Pointer? :: v.cell
  }

  ghost function Members(s: seq<nat>): set<nat> {
    set x | x in s
  }

  /** The frames the collector looks at: it stops at the first whose callee is the empty list. */
  function Walked(stack: seq<Frame>, nil: nat): seq<Frame> {
    if stack == [] || stack[0].callee == Pointer(nil) then [] else [stack[0]] + Walked(stack[1..], nil)
  }

  /** It looks at every frame exactly when none of them calls the empty list. */
  lemma {:induction false} WalkedAll(stack: seq<Frame>, nil: nat)
    ensures Walked(stack, nil) <= stack
    ensures Walked(stack, nil) == stack <==> forall i :: 0 <= i < |stack| ==> stack[i].callee != Pointer(nil)
    ensures Walked(stack, nil) != stack ==> stack[|Walked(stack, nil)|].callee == Pointer(nil)
  {
    if stack != [] {
      WalkedAll(stack[1..], nil);
      assert stack == [stack[0]] + stack[1..];
      assert forall i :: 0 < i < |stack| ==> stack[i] == stack[1..][i - 1];
    }
  }

  lemma {:induction false} WalkedStep(stack: seq<Frame>, nil: nat, i: nat)
    requires i < |stack| && i <= |Walked(stack, nil)|
    ensures i < |Walked(stack, nil)| <==> stack[i].callee != Pointer(nil)
    ensures i < |Walked(stack, nil)| ==> Walked(stack, nil)[i] == stack[i]
  {
    if i > 0 {
      WalkedStep(stack[1..], nil, i - 1);
    }
  }

  /** Code on its way to call the empty list: the frame of the code itself is behind the one being made. */
  lemma WalkedTooFew()
    ensures var cells, stack := map[1 := Code([])], [Frame(Pointer(0), []), Frame(Pointer(1), [])];
      && !Reachable(cells, RootsOf([], [], map[], Immediate(0), Walked(stack, 0)), 1)
      && Reachable(cells, FrameRoots(stack), 1)
  {
    var cells, stack := map[1 := Code([])], [Frame(Pointer(0), []), Frame(Pointer(1), [])];
    assert stack[1] in stack && Pointer(1) in [stack[1].callee] + stack[1].args;
    ReachSelf(cells, FrameRoots(stack), 1);
    assert Walked(stack, 0) == [];
    assert RootsOf([], [], map[], Immediate(0), []) == {};
  }

  ghost function FrameRoots(stack: seq<Frame>): set<nat> {
    set f, v | f in stack && v in [f.callee] + f.args && v.Pointer? :: v.cell
  }

  /** Where a collection starts: the tables, the protected cells, the accumulator and the frames. */
  ghost function RootsOf(modules: seq<nat>, globals: seq<nat>, counts: map<nat, nat>, d1: Value,
                         stack: seq<Frame>): set<nat> {
    Members(modules) + Members(globals) + counts.Keys + Pointers([d1]) + FrameRoots(stack)
  }

  ghost predicate AllIn(s: set<nat>, cells: map<nat, Cell>) {
    forall x :: x in s ==> x in cells
  }

  /** Every cell is in one of the two lists, the protected ones with how often. */
  ghost predicate Listed(cells: map<nat, Cell>, loose: set<nat>, counts: map<nat, nat>, symbols: set<nat>, n: nat) {
    && (forall x :: x in cells <==> x in loose || x in counts) && (forall x :: x in loose ==> x !in counts)
    && (forall x :: x in symbols ==> x in cells) && (forall x :: x in counts ==> counts[x] > 0) && n == |cells|
  }

  lemma ProtectRoots(modules: seq<nat>, globals: seq<nat>, counts: map<nat, nat>, d1: Value, stack: seq<Frame>,
                     cells: map<nat, Cell>, x: nat, n: nat)
    requires AllIn(RootsOf(modules, globals, counts, d1, stack), cells) && x in cells
    ensures AllIn(RootsOf(modules, globals, counts[x := n], d1, stack), cells)
    ensures AllIn(RootsOf(modules, globals, counts - {x}, d1, stack), cells)
  {
    hide Members, Pointers, FrameRoots;
    forall y | y in RootsOf(modules, globals, counts[x := n], d1, stack) ensures y in cells {
      assert y == x || y in RootsOf(modules, globals, counts, d1, stack);
    }
    forall y | y in RootsOf(modules, globals, counts - {x}, d1, stack) ensures y in cells {
      assert y in RootsOf(modules, globals, counts, d1, stack);
    }
  }

  lemma ListedMore(cells: map<nat, Cell>, loose: set<nat>, counts: map<nat, nat>, symbols: set<nat>, n: nat, x: nat,
                   c: Cell)
    requires Listed(cells, loose, counts, symbols, n) && x !in cells
    ensures Listed(cells[x := c], loose + {x}, counts, symbols, n + 1)
    ensures Listed(cells[x := c], loose + {x}, counts, symbols + {x}, n + 1)
  {
  }

  lemma ListedProtect(cells: map<nat, Cell>, loose: set<nat>, counts: map<nat, nat>, symbols: set<nat>, n: nat, x: nat,
                      k: nat)
    requires Listed(cells, loose, counts, symbols, n) && x in cells && k > 0
    ensures Listed(cells, loose - {x}, counts[x := k], symbols, n)
      && Listed(cells, loose + {x}, counts - {x}, symbols, n)
  {
  }

  lemma ListedLess(cells: map<nat, Cell>, loose: set<nat>, counts: map<nat, nat>, symbols: set<nat>, n: nat, x: nat)
    requires Listed(cells, loose, counts, symbols, n) && x in loose
    ensures n > 0 && Listed(cells - {x}, loose - {x}, counts, symbols - {x}, n - 1)
  {
    assert cells == (cells - {x})[x := cells[x]];
  }

  lemma UnlistedProtect(cells: map<nat, Cell>, loose: set<nat>, counts: map<nat, nat>, symbols: set<nat>, n: nat,
                        x: nat, k: nat)
    requires Listed(cells, loose, counts, symbols, n) && x in counts && k > 0
    ensures Listed(cells, loose, counts[x := k], symbols, n)
  {
  }

  class Heap {
    var cells: map<nat, Cell>
    var marks: set<nat>
    /** Cells in the list of all cells, and cells in the list of protected ones with how often. */
    var loose: set<nat>
    var protectCount: map<nat, nat>
    var symbols: set<nat>
    var modules: seq<nat>
    var globals: seq<nat>
    var d1: Value
    var stack: seq<Frame>
    const nil: nat
    var numOfCells: nat
    var cellsOnLastGc: nat

    ghost function Roots(): set<nat>
      reads this
    {
      RootsOf(modules, globals, protectCount, d1, Walked(stack, nil))
    }

    ghost predicate Valid()
      reads this
    {
      && ClosedIn(cells, cells.Keys, cells.Keys) && AllIn(Roots(), cells) && marks == {}
      && Listed(cells, loose, protectCount, symbols, numOfCells)
    }

    constructor (nil: nat)
      ensures Valid() && cells == map[] && this.nil == nil
    {
      this.nil := nil;
      cells := map[];
      marks := {};
      loose := {};
      protectCount := map[];
      symbols := {};
      modules := [];
      globals := [];
      d1 := Immediate(0);
      stack := [];
      numOfCells := 0;
      cellsOnLastGc := 0;
    }

    /** A new cell, whose words are taken as given. */
    method Create(c: Cell) returns (x: nat)
      requires Valid() && Pointers(Children(c)) <= cells.Keys
      modifies this`cells, this`loose, this`symbols, this`numOfCells
      ensures Valid() && x !in old(cells) && cells == old(cells)[x := c]
    {
      hide ClosedIn, Children, RootsOf, Listed, Pointers;
      x := FreshCell(cells);
      CreateKeeps(cells, x, c);
      ListedMore(cells, loose, protectCount, symbols, numOfCells, x, c);
      cells := cells[x := c];
      loose := loose + {x};
      numOfCells := numOfCells + 1;
      if c.Symbol? {
        symbols := symbols + {x};
      }
    }

    method Protect(v: Value)
      requires Valid() && (v.Pointer? ==> v.cell in cells)
      modifies this`loose, this`protectCount
      ensures Valid() && (v.Immediate? ==> protectCount == old(protectCount))
      ensures v.Pointer? ==> protectCount == old(protectCount)[v.cell := 1 + Counted(old(protectCount), v.cell)]
    {
      hide ClosedIn, RootsOf, Listed, AllIn;
      if v.Immediate? {
        return;
      }
      ProtectRoots(modules, globals, protectCount, d1, Walked(stack, nil), cells, v.cell,
                   1 + Counted(protectCount, v.cell));
      ListedProtect(cells, loose, protectCount, symbols, numOfCells, v.cell, 1 + Counted(protectCount, v.cell));
      loose := loose - {v.cell};
      protectCount := protectCount[v.cell := 1 + Counted(protectCount, v.cell)];
    }

    /** Undoes one `Protect`. */
    method Unprotect(v: Value)
      requires Valid() && (v.Pointer? ==> v.cell in protectCount)
      modifies this`loose, this`protectCount
      ensures Valid() && (v.Immediate? ==> protectCount == old(protectCount))
      ensures v.Pointer? ==> Counted(protectCount, v.cell) == Counted(old(protectCount), v.cell) - 1
      ensures v.Pointer? ==> protectCount - {v.cell} == old(protectCount) - {v.cell}
    {
      hide ClosedIn, RootsOf, AllIn;
      if v.Immediate? {
        return;
      }
      var n := protectCount[v.cell] - 1;
      ListedProtect(cells, loose, protectCount, symbols, numOfCells, v.cell, if n == 0 then 1 else n);
      ProtectRoots(modules, globals, protectCount, d1, Walked(stack, nil), cells, v.cell, n);
      UnlistedProtect(cells, loose, protectCount, symbols, numOfCells, v.cell, if n == 0 then 1 else n);
      hide Listed;
      if n == 0 {
        protectCount := protectCount - {v.cell};
        loose := loose + {v.cell};
      } else {
        protectCount := protectCount[v.cell := n];
      }
    }

    /** Marks a cell and, through it, every unmarked cell it leads to. */
    method MarkCell(v: Value)
      requires Pointers([v]) <= cells.Keys
      requires ClosedIn(cells, cells.Keys, cells.Keys) && marks <= cells.Keys
      modifies this`marks
      ensures Marked(cells, old(marks), marks, Pointers([v]))
      decreases cells.Keys - marks, 0
    {
      hide ClosedIn, Marked, Children;
      OnePointer(v);
      if v.Immediate? || v.cell in marks {
        MarkedNone(cells, marks, Pointers([v]));
        return;
      }
      var x := v.cell;
      ghost var before := marks;
      ChildrenIn(cells, x);
      marks := marks + {x};
      MarkAll(Children(cells[x]));
      MarkedCell(cells, before, marks, x);
    }

    method MarkAll(vs: seq<Value>)
      requires Pointers(vs) <= cells.Keys
      requires ClosedIn(cells, cells.Keys, cells.Keys) && marks <= cells.Keys
      modifies this`marks
      ensures Marked(cells, old(marks), marks, Pointers(vs))
      decreases cells.Keys - marks, 1
    {
      hide ClosedIn, Marked;
      ghost var before := marks;
      MarkedNone(cells, marks, {});
      assert Pointers(vs[..0]) == {};
      for i := 0 to |vs|
        invariant Marked(cells, before, marks, Pointers(vs[..i])) && before <= marks <= cells.Keys
      {
        ghost var mid := marks;
        PrefixPointers(vs, i);
        MarkCell(vs[i]);
        MarkedBounds(cells, mid, marks, Pointers([vs[i]]));
        MarkedTrans(cells, before, mid, marks, Pointers(vs[..i]), Pointers([vs[i]]));
      }
      assert vs[..|vs|] == vs;
    }

    /** Marks the cells of a table. */
    method MarkTable(table: seq<nat>)
      requires Members(table) <= cells.Keys
      requires ClosedIn(cells, cells.Keys, cells.Keys) && marks <= cells.Keys
      modifies this`marks
      ensures Marked(cells, old(marks), marks, Members(table))
    {
      hide ClosedIn, Marked, Pointers, Members;
      ghost var before := marks;
      MarkedNone(cells, marks, {});
      MembersPrefix(table);
      for i := 0 to |table|
        invariant Marked(cells, before, marks, Members(table[..i])) && before <= marks <= cells.Keys
      {
        ghost var mid := marks;
        OnePointer(Pointer(table[i]));
        MarkCell(Pointer(table[i]));
        MarkedBounds(cells, mid, marks, {table[i]});
        MarkedTrans(cells, before, mid, marks, Members(table[..i]), {table[i]});
      }
      assert table[..|table|] == table;
    }

    method MarkProtected()
      requires protectCount.Keys <= cells.Keys
      requires ClosedIn(cells, cells.Keys, cells.Keys) && marks <= cells.Keys
      modifies this`marks
      ensures Marked(cells, old(marks), marks, protectCount.Keys)
    {
      hide ClosedIn, Marked;
      ghost var before := marks;
      var rest := protectCount.Keys;
      MarkedNone(cells, marks, {});
      assert protectCount.Keys - rest == {};
      while rest != {}
        invariant rest <= protectCount.Keys && before <= marks <= cells.Keys
        invariant Marked(cells, before, marks, protectCount.Keys - rest)
        decreases rest
      {
        ghost var mid := marks;
        var x :| x in rest;
        OnePointer(Pointer(x));
        MarkCell(Pointer(x));
        MarkedBounds(cells, mid, marks, {x});
        MarkedTrans(cells, before, mid, marks, protectCount.Keys - rest, {x});
        assert protectCount.Keys - rest + {x} == protectCount.Keys - (rest - {x});
        rest := rest - {x};
      }
      assert protectCount.Keys - {} == protectCount.Keys;
    }

    /** Looks at frame after frame, up to one whose callee is the empty list. */
    method MarkFrames()
      requires FrameRoots(Walked(stack, nil)) <= cells.Keys
      requires ClosedIn(cells, cells.Keys, cells.Keys) && marks <= cells.Keys
      modifies this`marks
      ensures Marked(cells, old(marks), marks, FrameRoots(Walked(stack, nil)))
    {
      hide ClosedIn, Marked, Walked;
      ghost var before, walked := marks, Walked(stack, nil);
      WalkedAll(stack, nil);
      MarkedNone(cells, marks, {});
      assert FrameRoots(walked[..0]) == {};
      var i := 0;
      while i < |stack| && stack[i].callee != Pointer(nil)
        invariant 0 <= i <= |walked| <= |stack|
        invariant Marked(cells, before, marks, FrameRoots(walked[..i])) && before <= marks <= cells.Keys
      {
        ghost var mid := marks;
        var words := [stack[i].callee] + stack[i].args;
        WalkedStep(stack, nil, i);
        FramePrefix(walked, i);
        MarkAll(words);
        MarkedBounds(cells, mid, marks, Pointers(words));
        MarkedTrans(cells, before, mid, marks, FrameRoots(walked[..i]), Pointers(words));
        i := i + 1;
      }
      assert i == |walked| by {
        if i < |stack| {
          WalkedStep(stack, nil, i);
        }
      }
      assert walked[..i] == walked;
    }

    /** Marks what the roots lead to, and nothing else. */
    method GcMark()
      requires Valid()
      modifies this`marks
      ensures Marked(cells, {}, marks, Roots())
    {
      hide ClosedIn, Marked, Pointers, Members, FrameRoots, Listed;
      MarkTable(modules);
      ghost var m1 := marks;
      ghost var r := Members(modules);
      MarkedBounds(cells, {}, m1, r);
      MarkTable(globals);
      ghost var m2 := marks;
      MarkedTrans(cells, {}, m1, m2, r, Members(globals));
      r := r + Members(globals);
      MarkedBounds(cells, {}, m2, r);
      MarkProtected();
      ghost var m3 := marks;
      MarkedTrans(cells, {}, m2, m3, r, protectCount.Keys);
      r := r + protectCount.Keys;
      MarkedBounds(cells, {}, m3, r);
      MarkCell(d1);
      ghost var m4 := marks;
      MarkedTrans(cells, {}, m3, m4, r, Pointers([d1]));
      r := r + Pointers([d1]);
      MarkedBounds(cells, {}, m4, r);
      MarkFrames();
      MarkedTrans(cells, {}, m4, marks, r, FrameRoots(Walked(stack, nil)));
    }

    method Destroy(x: nat)
      requires Listed(cells, loose, protectCount, symbols, numOfCells) && x in loose
      modifies this`cells, this`loose, this`symbols, this`numOfCells
      ensures Listed(cells, loose, protectCount, symbols, numOfCells)
      ensures cells == old(cells) - {x} && loose == old(loose) - {x}
    {
      ListedLess(cells, loose, protectCount, symbols, numOfCells, x);
      hide Listed;
      cells := cells - {x};
      loose := loose - {x};
      symbols := symbols - {x};
      numOfCells := numOfCells - 1;
    }

    /** Frees the unmarked cells and clears all marks. */
    method GcSweep()
      requires Listed(cells, loose, protectCount, symbols, numOfCells) && AllIn(marks, cells)
      requires forall x :: x in protectCount ==> x in marks
      modifies this`cells, this`loose, this`symbols, this`numOfCells, this`marks
      ensures Listed(cells, loose, protectCount, symbols, numOfCells) && marks == {}
        && cells == Kept(old(cells), old(marks))
    {
      hide AllIn;
      ghost var before, kept := cells, marks;
      SweepStart(cells, loose, protectCount, symbols, numOfCells, marks);
      var rest := loose;
      while rest != {}
        invariant Listed(cells, loose, protectCount, symbols, numOfCells) && rest <= loose
        invariant Swept(before, kept, cells, marks, protectCount, rest)
        decreases rest
      {
        hide Listed;
        var x :| x in rest;
        SweepStep(before, kept, cells, marks, protectCount, rest, x);
        hide Swept;
        if x in marks {
          marks := marks - {x};
        } else {
          Destroy(x);
        }
        rest := rest - {x};
      }
      SweepEnd(before, kept, cells, marks, protectCount);
      hide Swept, Listed, Kept;
      var held := protectCount.Keys;
      while held != {}
        invariant held <= protectCount.Keys && marks <= held
        decreases held
        modifies this`marks
      {
        var x :| x in held;
        marks := marks - {x};
        held := held - {x};
      }
    }

    /** A collection keeps exactly the cells the roots lead to, with what is in them. */
    method Gc() returns (ran: bool)
      requires Valid()
      modifies this`cells, this`loose, this`symbols, this`numOfCells, this`marks, this`cellsOnLastGc
      ensures Valid() && ran == (old(numOfCells) - old(cellsOnLastGc) >= GC_THRESHOLD)
      ensures !ran ==> cells == old(cells)
      ensures ran ==> forall x :: x in cells <==> x in old(cells) && Reachable(old(cells), old(Roots()), x)
      ensures ran ==> forall x :: x in cells && x in old(cells) ==> cells[x] == old(cells)[x]
      ensures NoneDangles(cells)
      ensures forall x :: IsRoot(modules, globals, protectCount, d1, Walked(stack, nil), x) ==> x in cells
      ensures ran ==> forall x :: x in cells ==>
        || IsRoot(modules, globals, protectCount, d1, Walked(stack, nil), x)
        || HeldIn(cells, x)
    {
      hide ClosedIn, Listed, Marked, Reachable, NoneDangles, IsRoot, HeldIn;
      ran := numOfCells - cellsOnLastGc >= GC_THRESHOLD;
      if ran {
        ghost var before, roots := cells, Roots();
        GcMark();
        MarkedExactly(cells, marks, roots);
        ghost var kept := marks;
        MarkedBounds(cells, {}, marks, roots);
        assert forall x :: x in protectCount ==> x in roots;
        hide RootsOf;
        GcSweep();
        KeptClosed(before, kept, roots);
        cellsOnLastGc := numOfCells;
        KeptHeld(before, cells, roots);
      }
      ClosedMeans(cells);
      forall x ensures x in Roots() <==> IsRoot(modules, globals, protectCount, d1, Walked(stack, nil), x) {
        RootMeans(modules, globals, protectCount, d1, Walked(stack, nil), x);
      }
    }
  }

  ghost predicate HeldIn(cells: map<nat, Cell>, x: nat) {
    exists y :: y != x && y in cells && Holds(cells[y], x)
  }

  /** What is kept without being a root is held by another cell that is kept. */
  lemma KeptHeld(before: map<nat, Cell>, after: map<nat, Cell>, roots: set<nat>)
    requires forall x :: x in after <==> x in before && Reachable(before, roots, x)
    requires forall x :: x in after && x in before ==> after[x] == before[x]
    ensures forall x :: x in after && x !in roots ==> HeldIn(after, x)
  {
    forall x | x in after && x !in roots ensures HeldIn(after, x) {
      var p :| Path(before, p) && p[0] in roots && p[|p| - 1] == x;
      HeldByAnother(before, roots, p);
    }
  }

  /** Where the sweep stands: `rest` is still to be looked at. */
  ghost predicate Swept(before: map<nat, Cell>, kept: set<nat>, cells: map<nat, Cell>, marks: set<nat>,
                        counts: map<nat, nat>, rest: set<nat>) {
    && (forall x :: x in cells <==> x in before && (x in kept || x in rest))
    && (forall x :: x in cells && x in before ==> cells[x] == before[x])
    && (forall x :: x in marks <==> x in kept && (x in rest || x in counts))
    && forall x :: x in rest ==> x !in counts && x in before
  }

  lemma SweepStart(cells: map<nat, Cell>, loose: set<nat>, counts: map<nat, nat>, symbols: set<nat>, n: nat,
                   marks: set<nat>)
    requires Listed(cells, loose, counts, symbols, n) && AllIn(marks, cells) && forall x :: x in counts ==> x in marks
    ensures Swept(cells, marks, cells, marks, counts, loose)
  {
  }

  lemma SweepStep(before: map<nat, Cell>, kept: set<nat>, cells: map<nat, Cell>, marks: set<nat>, counts: map<nat, nat>,
                  rest: set<nat>, x: nat)
    requires Swept(before, kept, cells, marks, counts, rest) && x in rest
    ensures x in marks ==> Swept(before, kept, cells, marks - {x}, counts, rest - {x})
    ensures x !in marks ==> Swept(before, kept, cells - {x}, marks, counts, rest - {x})
  {
  }

  lemma SweepEnd(before: map<nat, Cell>, kept: set<nat>, cells: map<nat, Cell>, marks: set<nat>, counts: map<nat, nat>)
    requires Swept(before, kept, cells, marks, counts, {})
    ensures cells == Kept(before, kept) && marks <= counts.Keys
  {
  }

  function Counted(counts: map<nat, nat>, x: nat): nat {
    if x in counts then counts[x] else 0
  }

  ghost function Kept(cells: map<nat, Cell>, s: set<nat>): map<nat, Cell> {
    map x | x in cells && x in s :: cells[x]
  }

  /** A place for a new cell: one of the spare ones, or new memory. */
  method FreshCell(cells: map<nat, Cell>) returns (x: nat)
    ensures x !in cells
  {
    x := 0;
    var rest := cells.Keys;
    while x in cells
      invariant forall y :: y in cells && y >= x ==> y in rest
      decreases rest
    {
      rest := rest - {x};
      x := x + 1;
    }
  }

  lemma CreateKeeps(cells: map<nat, Cell>, x: nat, c: Cell)
    requires ClosedIn(cells, cells.Keys, cells.Keys) && x !in cells && Pointers(Children(c)) <= cells.Keys
    ensures ClosedIn(cells[x := c], cells[x := c].Keys, cells[x := c].Keys)
  {
    var after := cells[x := c];
    forall y, z | y in after.Keys && Edge(after, y, z) ensures z in after.Keys {
      if y != x {
        assert Edge(cells, y, z);
      } else {
        assert z in Pointers(Children(c));
      }
    }
  }

  lemma OnePointer(v: Value)
    ensures Pointers([v]) == if v.Pointer? then {v.cell} else {}
  {
  }

  lemma PrefixPointers(vs: seq<Value>, i: nat)
    requires i < |vs|
    ensures Pointers(vs[..i + 1]) == Pointers(vs[..i]) + Pointers([vs[i]]) && Pointers([vs[i]]) <= Pointers(vs)
  {
    assert vs[..i + 1] == vs[..i] + [vs[i]];
  }

  lemma MembersPrefix(table: seq<nat>)
    ensures Members(table[..0]) == {}
    ensures forall i :: 0 <= i < |table| ==> Members(table[..i + 1]) == Members(table[..i]) + {table[i]}
    ensures forall i :: 0 <= i < |table| ==> table[i] in Members(table)
  {
    forall i | 0 <= i < |table| ensures Members(table[..i + 1]) == Members(table[..i]) + {table[i]} {
      assert table[..i + 1] == table[..i] + [table[i]];
    }
  }

  lemma FramePrefix(stack: seq<Frame>, i: nat)
    requires i < |stack|
    ensures var words := [stack[i].callee] + stack[i].args;
      FrameRoots(stack[..i + 1]) == FrameRoots(stack[..i]) + Pointers(words) && Pointers(words) <= FrameRoots(stack)
  {
    assert stack[..i + 1] == stack[..i] + [stack[i]];
    assert stack[i] in stack;
  }

  lemma ChildrenIn(cells: map<nat, Cell>, x: nat)
    requires ClosedIn(cells, cells.Keys, cells.Keys) && x in cells
    ensures Pointers(Children(cells[x])) <= cells.Keys
  {
    forall y | y in Pointers(Children(cells[x])) ensures y in cells.Keys {
      assert Edge(cells, x, y);
    }
  }

  /** The marking from some cells on: all of them and all their unmarked descendants, and nothing else. */
  ghost predicate Marked(cells: map<nat, Cell>, before: set<nat>, after: set<nat>, from: set<nat>) {
    && before <= after <= cells.Keys && from <= after
    && ClosedIn(cells, after - before, after)
    && forall x :: x in after - before ==> Reachable(cells, from, x)
  }

  lemma MarkedBounds(cells: map<nat, Cell>, before: set<nat>, after: set<nat>, from: set<nat>)
    requires Marked(cells, before, after, from)
    ensures before <= after <= cells.Keys && from <= after
  {
  }

  lemma MarkedNone(cells: map<nat, Cell>, marks: set<nat>, from: set<nat>)
    requires marks <= cells.Keys && from <= marks
    ensures Marked(cells, marks, marks, from)
  {
  }

  lemma MarkedTrans(cells: map<nat, Cell>, a: set<nat>, b: set<nat>, c: set<nat>, f: set<nat>, g: set<nat>)
    requires Marked(cells, a, b, f) && Marked(cells, b, c, g)
    ensures Marked(cells, a, c, f + g)
  {
    hide Reachable;
    forall x | x in c - a ensures Reachable(cells, f + g, x) {
      if x in b {
        ReachMore(cells, f, f + g, x);
      } else {
        ReachMore(cells, g, f + g, x);
      }
    }
  }

  lemma ReachVia(cells: map<nat, Cell>, x: nat, y: nat)
    requires x in cells && Reachable(cells, Pointers(Children(cells[x])), y)
    ensures Reachable(cells, {x}, y)
  {
    var p :| Path(cells, p) && p[0] in Pointers(Children(cells[x])) && p[|p| - 1] == y;
    var q := [x] + p;
    assert Edge(cells, x, p[0]);
    assert Path(cells, q) && q[0] == x && q[|q| - 1] == y;
  }

  lemma MarkedCell(cells: map<nat, Cell>, before: set<nat>, after: set<nat>, x: nat)
    requires x in cells && before <= cells.Keys
    requires Marked(cells, before + {x}, after, Pointers(Children(cells[x])))
    ensures Marked(cells, before, after, {x})
  {
    hide Reachable, Children;
    forall y, z | y in after - before && Edge(cells, y, z) ensures z in after {
      if y == x {
        assert z in Pointers(Children(cells[x]));
      }
    }
    forall y | y in after - before ensures Reachable(cells, {x}, y) {
      if y == x {
        ReachSelf(cells, {x}, x);
      } else {
        ReachVia(cells, x, y);
      }
    }
  }

  /** Starting with no marks, the marked cells are just the reachable ones. */
  lemma MarkedExactly(cells: map<nat, Cell>, marks: set<nat>, roots: set<nat>)
    requires Marked(cells, {}, marks, roots)
    ensures forall x :: x in marks <==> Reachable(cells, roots, x)
  {
    assert marks - {} == marks;
    forall x | Reachable(cells, roots, x) ensures x in marks {
      ClosedReach(cells, marks, roots, x);
    }
  }

  lemma KeptClosed(cells: map<nat, Cell>, marks: set<nat>, roots: set<nat>)
    requires Marked(cells, {}, marks, roots)
    ensures ClosedIn(Kept(cells, marks), Kept(cells, marks).Keys, Kept(cells, marks).Keys)
  {
    var after := Kept(cells, marks);
    forall x, y | x in after.Keys && Edge(after, x, y) ensures y in after.Keys {
      assert Edge(cells, x, y);
    }
  }
}
