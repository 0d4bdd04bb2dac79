/** Compiled code and the collector: the collector does not look at instructions, so the compiler lists what
    they load in a table that it does look at. */
module SchemeOperands {
  import opened SchemeHeap

  /** The tables of code: its variables, what it captures, what it boxes, and what it loads. */
  const OFFSET_DATA := 3

  /** Procedures, booleans, global variables and the fixed cells, which are the empty list and the empty vector,
      are held by the tables of names; other cells only by who uses them. */
  predicate IsData(cells: map<nat, Cell>, fixed: set<nat>, v: Value) {
    && v.Pointer? && v.cell in cells && v.cell !in fixed
    && !cells[v.cell].Procedure? && !cells[v.cell].Boolean? && !cells[v.cell].Indirect?
  }

  /** Every cell that the instructions load is in the table, or is held by a name. */
  ghost predicate Covers(cells: map<nat, Cell>, names: set<nat>, code: seq<Value>, data: seq<Value>) {
    forall i :: 0 <= i < |code| && code[i].Pointer? ==> code[i] in data || Reachable(cells, names, code[i].cell)
  }

  /** Code as the compiler leaves it. */
  ghost predicate Built(cells: map<nat, Cell>, names: set<nat>, x: nat) {
    && x in cells && cells[x].Code? && |cells[x].vector| >= OFFSET_OPCODE
    && var d := cells[x].vector[OFFSET_DATA];
    && d.Pointer? && d.cell in cells && cells[d.cell].Vector?
    && Covers(cells, names, cells[x].vector[OFFSET_OPCODE..], cells[d.cell].vector)
  }

  class CodeBuffer {
    const fixed: set<nat>
    var code: seq<Value>
    var data: seq<Value>

    constructor (fixed: set<nat>)
      ensures code == [] && data == [] && this.fixed == fixed
    {
      this.fixed := fixed;
      code, data := [], [];
    }

    /** An instruction or its operand; a cell it loads goes to the table too, once. */
    method Append(heap: Heap, v: Value)
      requires heap.Valid() && Covers(heap.cells, Named(heap), code, data)
      requires v.Pointer? ==> IsData(heap.cells, fixed, v) || Reachable(heap.cells, Named(heap), v.cell)
      requires Within(data, heap.cells)
      modifies this
      ensures code == old(code) + [v] && Covers(heap.cells, Named(heap), code, data) && Within(data, heap.cells)
      ensures data == if IsData(heap.cells, fixed, v) && v !in old(data) then old(data) + [v] else old(data)
    {
      hide Reachable, Heap.Valid;
      code := code + [v];
      if IsData(heap.cells, fixed, v) && v !in data {
        data := data + [v];
      }
    }

    /** Makes the code with its tables; an empty table is the one empty vector. */
    method Finish(heap: Heap, vars: Value, closure: Value, indirect: Value, empty: nat) returns (x: nat)
      requires heap.Valid() && Covers(heap.cells, Named(heap), code, data) && Within(data, heap.cells)
      requires Within([vars, closure, indirect], heap.cells) && empty in heap.cells && heap.cells[empty] == Vector([])
      modifies heap`cells, heap`loose, heap`symbols, heap`numOfCells
      ensures heap.Valid() && x !in old(heap.cells) && Built(heap.cells, Named(heap), x)
      ensures Kept(heap.cells, old(heap.cells).Keys) == old(heap.cells)
      ensures heap.cells[x].vector[OFFSET_OPCODE..] == code
      ensures heap.cells[x].vector[..OFFSET_DATA] == [vars, closure, indirect]
    {
      hide Reachable, Heap.Valid;
      var before := heap.cells;
      var d := empty;
      if data != [] {
        WithinPointers(data, heap.cells);
        d := heap.Create(Vector(data));
        CoversMore(before, heap.cells, Named(heap), code, data);
      }
      ghost var mid := heap.cells;
      var words := [vars, closure, indirect, Pointer(d)] + code;
      assert words[..OFFSET_OPCODE] == [vars, closure, indirect, Pointer(d)] && words[OFFSET_OPCODE..] == code;
      WithinPointers(words[..OFFSET_OPCODE], heap.cells);
      x := heap.Create(Code(words));
      CoversMore(mid, heap.cells, Named(heap), code, data);
    }
  }

  /** The cells that the tables of names hold. */
  ghost function Named(heap: Heap): set<nat>
    reads heap
  {
    Members(heap.modules) + Members(heap.globals)
  }

  predicate Within(vs: seq<Value>, cells: map<nat, Cell>) {
    forall i :: 0 <= i < |vs| && vs[i].Pointer? ==> vs[i].cell in cells
  }

  lemma WithinPointers(vs: seq<Value>, cells: map<nat, Cell>)
    requires Within(vs, cells)
    ensures Pointers(vs) <= cells.Keys
  {
  }

  /** New cells do not cut old paths. */
  lemma ReachKept(a: map<nat, Cell>, b: map<nat, Cell>, from: set<nat>, x: nat)
    requires Reachable(a, from, x) && forall c :: c in a ==> c in b && b[c] == a[c]
    ensures Reachable(b, from, x)
  {
    var p :| Path(a, p) && p[0] in from && p[|p| - 1] == x;
    assert forall i :: 0 <= i < |p| - 1 ==> Edge(a, p[i], p[i + 1]) ==> Edge(b, p[i], p[i + 1]);
    assert Path(b, p);
  }

  lemma CoversMore(a: map<nat, Cell>, b: map<nat, Cell>, names: set<nat>, code: seq<Value>, data: seq<Value>)
    requires Covers(a, names, code, data) && forall c :: c in a ==> c in b && b[c] == a[c]
    ensures Covers(b, names, code, data)
  {
    hide Reachable;
    forall i | 0 <= i < |code| && code[i].Pointer? && code[i] !in data ensures Reachable(b, names, code[i].cell) {
      ReachKept(a, b, names, code[i].cell);
    }
  }

  // --- collecting while code runs

  /** The code of some frame the collector looks at, or code kept from collection while it is evaluated. */
  ghost predicate Runs(heap: Heap, x: nat)
    reads heap
  {
    || x in heap.protectCount
    || exists f :: f in Walked(heap.stack, heap.nil) && Calls(heap.cells, f.callee, x)
  }

  /** A frame's callee is the code itself, or a closure of it. */
  predicate Calls(cells: map<nat, Cell>, v: Value, x: nat) {
    v.Pointer? && (v.cell == x || (v.cell in cells && cells[v.cell].Lambda? && cells[v.cell].code == Pointer(x)))
  }

  lemma RunsReach(heap: Heap, x: nat)
    requires Runs(heap, x)
    ensures Reachable(heap.cells, heap.Roots(), x)
  {
    if x in heap.protectCount {
      ReachSelf(heap.cells, heap.Roots(), x);
    } else {
      var f :| f in Walked(heap.stack, heap.nil) && Calls(heap.cells, f.callee, x);
      var v := f.callee;
      assert v == ([f.callee] + f.args)[0];
      assert v.cell in FrameRoots(Walked(heap.stack, heap.nil));
      ReachSelf(heap.cells, heap.Roots(), v.cell);
      if v.cell != x {
        assert Edge(heap.cells, v.cell, x) by {
          assert [heap.cells[v.cell].code, heap.cells[v.cell].env][0] == Pointer(x);
        }
        ReachStep(heap.cells, heap.Roots(), v.cell, x);
      }
    }
  }

  /** Whatever an instruction of reachable code loads is reachable: through the table, or by its name. */
  lemma OperandReach(cells: map<nat, Cell>, names: set<nat>, roots: set<nat>, x: nat, i: nat)
    requires Built(cells, names, x) && names <= roots && Reachable(cells, roots, x)
    requires OFFSET_OPCODE <= i < |cells[x].vector| && cells[x].vector[i].Pointer?
    ensures Reachable(cells, roots, cells[x].vector[i].cell)
  {
    var v, d := cells[x].vector[i], cells[x].vector[OFFSET_DATA];
    assert cells[x].vector[OFFSET_OPCODE..][i - OFFSET_OPCODE] == v;
    hide Reachable;
    if v in cells[d.cell].vector {
      assert cells[x].vector[..OFFSET_OPCODE][OFFSET_DATA] == d;
      assert Edge(cells, x, d.cell);
      ReachStep(cells, roots, x, d.cell);
      assert Edge(cells, d.cell, v.cell);
      ReachStep(cells, roots, d.cell, v.cell);
    } else {
      ReachMore(cells, names, roots, v.cell);
    }
  }

  lemma {:induction false} ReachThrough(cells: map<nat, Cell>, roots: set<nat>, x: nat, p: seq<nat>, n: nat)
    requires Reachable(cells, roots, x) && Path(cells, p) && p[0] == x && n < |p|
    ensures Reachable(cells, roots, p[n])
  {
    if n > 0 {
      ReachThrough(cells, roots, x, p, n - 1);
      assert Edge(cells, p[n - 1], p[n]);
      hide Reachable;
      ReachStep(cells, roots, p[n - 1], p[n]);
    }
  }

  /** A collection frees nothing that the running code can load, nor anything that hangs on it. */
  method Collect(heap: Heap, ghost x: nat) returns (ran: bool)
    requires heap.Valid() && Runs(heap, x) && Built(heap.cells, Named(heap), x)
    modifies heap
    ensures heap.Valid() && x in heap.cells && x in old(heap.cells) && heap.cells[x] == old(heap.cells)[x]
    ensures forall i, y :: OFFSET_OPCODE <= i < |old(heap.cells)[x].vector| && old(heap.cells)[x].vector[i].Pointer?
                           && Reachable(old(heap.cells), {old(heap.cells)[x].vector[i].cell}, y)
                             && y in old(heap.cells) ==>
      y in heap.cells && heap.cells[y] == old(heap.cells)[y]
  {
    ghost var before, roots, names := heap.cells, heap.Roots(), Named(heap);
    RunsReach(heap, x);
    forall i, y | OFFSET_OPCODE <= i < |before[x].vector| && before[x].vector[i].Pointer?
      && Reachable(before, {before[x].vector[i].cell}, y)
      ensures Reachable(before, roots, y)
    {
      OperandReach(before, names, roots, x, i);
      var p :| Path(before, p) && p[0] in {before[x].vector[i].cell} && p[|p| - 1] == y;
      ReachThrough(before, roots, before[x].vector[i].cell, p, |p| - 1);
    }
    hide Reachable, Heap.Valid, Heap.Roots, Covers;
    ran := heap.Gc();
  }
}
