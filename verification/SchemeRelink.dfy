/** The reader's rewriting of derived forms, done by relinking the cells of the list it has just read. */
module SchemeRelink {
  /** A word of a cell: the empty list, a boolean, a number, a symbol, or a cell. */
  datatype Word = Nil | Truth(b: bool) | Number(i: int) | Sym(name: string) | Ref(cell: nat)

  datatype Pair = Pair(first: Word, rest: Word)

  type Cells = map<nat, Pair>

  /** A structure of cells down to words that are taken as they are. */
  datatype Tree = Leaf(word: Word) | Node(first: Tree, rest: Tree)

  ghost predicate Shows(cells: Cells, w: Word, t: Tree)
    decreases t
  {
    match t
    case Leaf(x) => w == x
    case Node(a, b) =>
      w.Ref? && w.cell in cells && Shows(cells, cells[w.cell].first, a) && Shows(cells, cells[w.cell].rest, b)
  }

  function ListOf(ws: seq<Word>): Tree {
    if ws == [] then Leaf(Nil) else Node(Leaf(ws[0]), ListOf(ws[1..]))
  }

  /** A list whose cells are known. */
  ghost predicate Spine(cells: Cells, w: Word, ids: seq<nat>, items: seq<Word>)
    decreases |ids|
  {
    && |ids| == |items|
    && if ids == [] then w == Nil
       else
         && w == Ref(ids[0]) && ids[0] in cells && cells[ids[0]].first == items[0] && ids[0] !in ids[1..]
         && Spine(cells, cells[ids[0]].rest, ids[1..], items[1..])
  }

  lemma {:induction false} SpineShows(cells: Cells, w: Word, ids: seq<nat>, items: seq<Word>)
    requires Spine(cells, w, ids, items)
    ensures Shows(cells, w, ListOf(items))
    decreases |ids|
  {
    if ids != [] {
      SpineShows(cells, cells[ids[0]].rest, ids[1..], items[1..]);
    }
  }

  lemma {:induction false} SpineKept(a: Cells, b: Cells, w: Word, ids: seq<nat>, items: seq<Word>)
    requires Spine(a, w, ids, items) && forall c :: c in ids ==> c in a && c in b && b[c] == a[c]
    ensures Spine(b, w, ids, items)
    decreases |ids|
  {
    if ids != [] {
      SpineKept(a, b, a[ids[0]].rest, ids[1..], items[1..]);
    }
  }

  lemma {:induction false} SpineIn(cells: Cells, w: Word, ids: seq<nat>, items: seq<Word>)
    requires Spine(cells, w, ids, items)
    ensures forall c :: c in ids ==> c in cells
    decreases |ids|
  {
    if ids != [] {
      SpineIn(cells, cells[ids[0]].rest, ids[1..], items[1..]);
    }
  }

  lemma SpineLength(cells: Cells, w: Word, ids: seq<nat>, items: seq<Word>)
    requires Spine(cells, w, ids, items)
    ensures |ids| == |items|
  {
  }

  ghost function IdSet(ids: seq<nat>): set<nat> {
    set c | c in ids
  }

  /** Cells `same` are as they were. */
  ghost predicate Agree(a: Cells, b: Cells, same: set<nat>) {
    forall c :: c in same && c in a ==> c in b && b[c] == a[c]
  }

  /** Cells outside the given set are as they were. */
  ghost predicate Untouched(a: Cells, b: Cells, s: set<nat>) {
    forall c :: c in a && c !in s ==> c in b && b[c] == a[c]
  }

  // --- the core forms that come out

  datatype Form = And | Or

  function Keyword(form: Form): Word {
    Sym(if form.And? then "and" else "or")
  }

  /** `((lambda (v) (if v v . tail)) ...)`: what stands before the operand. */
  function TestTree(tail: Tree): Tree {
    Node(Leaf(Sym("lambda")), Node(Node(Leaf(Sym("v")), Leaf(Nil)),
      Node(Node(Leaf(Sym("if")), Node(Leaf(Sym("v")), Node(Leaf(Sym("v")), tail))), Leaf(Nil))))
  }

  /** One operand with the rest of the form in its place: `(if op inner #f)`, or `((lambda (v) (if v v inner)) op)`. */
  function StepTree(form: Form, op: Word, inner: Tree): Tree {
    match form
    case And => Node(Leaf(Sym("if")), Node(Leaf(op), Node(inner, Node(Leaf(Truth(false)), Leaf(Nil)))))
    case Or => Node(TestTree(Node(inner, Leaf(Nil))), Node(Leaf(op), Leaf(Nil)))
  }

  function FormTree(form: Form, ops: seq<Word>): Tree {
    if ops == [] then Leaf(Truth(form.And?)) else if |ops| == 1 then Leaf(ops[0])
    else StepTree(form, ops[0], FormTree(form, ops[1..]))
  }

  // --- the levels built so far, with a hole in the first word of cell `dest`

  ghost predicate AndLevel(cells: Cells, done: set<nat>, w: Word, op: Word, n: nat) {
    && w.Ref? && w.cell in done && w.cell in cells && cells[w.cell].first == Sym("if")
    && var f := cells[w.cell].rest;
    && f.Ref? && f.cell in done && f.cell in cells && cells[f.cell] == Pair(op, Ref(n)) && n in cells
    && var t := cells[n].rest;
    && t.Ref? && t.cell in done && t.cell in cells && cells[t.cell] == Pair(Truth(false), Nil)
  }

  /** The procedure that tests its argument, all of whose cells are in the set. */
  ghost predicate TestAt(cells: Cells, done: set<nat>, w: Word, tail: Word) {
    && At(cells, done, w, Sym("lambda")) && var p := cells[w.cell].rest;
    && p.Ref? && p.cell in done && p.cell in cells && At(cells, done, cells[p.cell].first, Sym("v"))
    && cells[cells[p.cell].first.cell].rest == Nil
    && var r := cells[p.cell].rest;
    && r.Ref? && r.cell in done && r.cell in cells && cells[r.cell].rest == Nil
      && At(cells, done, cells[r.cell].first, Sym("if"))
    && var s := cells[cells[r.cell].first.cell].rest;
    && At(cells, done, s, Sym("v")) && At(cells, done, cells[s.cell].rest, Sym("v"))
    && cells[cells[s.cell].rest.cell].rest == tail
  }

  ghost predicate At(cells: Cells, done: set<nat>, w: Word, first: Word) {
    w.Ref? && w.cell in done && w.cell in cells && cells[w.cell].first == first
  }

  ghost predicate OrLevel(cells: Cells, done: set<nat>, w: Word, op: Word, n: nat) {
    && w.Ref? && w.cell in done && w.cell in cells && TestAt(cells, done, cells[w.cell].first, Ref(n))
    && var f := cells[w.cell].rest;
    && f.Ref? && f.cell in done && f.cell in cells && cells[f.cell] == Pair(op, Nil) && n in cells
      && cells[n].rest == Nil
  }

  ghost predicate Level(form: Form, cells: Cells, done: set<nat>, w: Word, op: Word, n: nat) {
    match form
    case And => AndLevel(cells, done, w, op, n)
    case Or => OrLevel(cells, done, w, op, n)
  }

  ghost predicate Ctx(form: Form, cells: Cells, done: set<nat>, w: Word, ops: seq<Word>, dest: nat)
    decreases |ops|
  {
    && ops != []
    && exists n :: Level(form, cells, done, w, ops[0], n) && n in cells
                   && if |ops| == 1 then n == dest && dest !in done
                      else n in done && Ctx(form, cells, done, cells[n].first, ops[1..], dest)
  }

  lemma LevelKept(form: Form, a: Cells, b: Cells, done: set<nat>, more: set<nat>, w: Word, op: Word, n: nat)
    requires Level(form, a, done, w, op, n) && Agree(a, b, done) && done <= more && n in b && b[n].rest == a[n].rest
    ensures Level(form, b, more, w, op, n)
  {
  }

  /** Filling the hole with one more level moves the hole there. */
  lemma {:induction false} Extend(form: Form, a: Cells, b: Cells, done: set<nat>, more: set<nat>, w: Word,
                                  ops: seq<Word>, op: Word, dest: nat, dest': nat)
    requires Ctx(form, a, done, w, ops, dest) && Agree(a, b, done) && done + {dest} <= more
    requires dest in a && dest in b && b[dest].rest == a[dest].rest && Ctx(form, b, more, b[dest].first, [op], dest')
    ensures Ctx(form, b, more, w, ops + [op], dest')
    decreases |ops|
  {
    hide Level;
    var n :| Level(form, a, done, w, ops[0], n) && n in a
             && if |ops| == 1 then n == dest && dest !in done
                else n in done && Ctx(form, a, done, a[n].first, ops[1..], dest);
    assert n in b && b[n].rest == a[n].rest;
    LevelKept(form, a, b, done, more, w, ops[0], n);
    var all := ops + [op];
    assert all[0] == ops[0] && all[1..] == ops[1..] + [op];
    if |ops| == 1 {
      assert ops[1..] + [op] == [op];
      assert n in more && Ctx(form, b, more, b[n].first, all[1..], dest');
    } else {
      Extend(form, a, b, done, more, a[n].first, ops[1..], op, dest, dest');
      assert b[n] == a[n];
      assert n in more && Ctx(form, b, more, b[n].first, all[1..], dest');
    }
  }

  lemma {:induction false} CtxKept(form: Form, a: Cells, b: Cells, done: set<nat>, w: Word, ops: seq<Word>, dest: nat)
    requires Ctx(form, a, done, w, ops, dest) && Agree(a, b, done) && dest in a && dest in b && b[dest] == a[dest]
    ensures Ctx(form, b, done, w, ops, dest)
    decreases |ops|
  {
    hide Level;
    var n :| Level(form, a, done, w, ops[0], n) && n in a
             && if |ops| == 1 then n == dest && dest !in done
                else n in done && Ctx(form, a, done, a[n].first, ops[1..], dest);
    assert n in b && b[n] == a[n];
    LevelKept(form, a, b, done, done, w, ops[0], n);
    if |ops| > 1 {
      CtxKept(form, a, b, done, a[n].first, ops[1..], dest);
    }
  }

  /** With the rest of the form in the hole, the whole form is there. */
  lemma {:induction false} Fill(form: Form, cells: Cells, done: set<nat>, w: Word, ops: seq<Word>, dest: nat,
                                rest: seq<Word>)
    requires Ctx(form, cells, done, w, ops, dest) && rest != [] && dest in cells
    requires Shows(cells, cells[dest].first, FormTree(form, rest))
    ensures Shows(cells, w, FormTree(form, ops + rest))
    decreases |ops|
  {
    hide Level, Shows, StepTree;
    var n :| Level(form, cells, done, w, ops[0], n) && n in cells
             && if |ops| == 1 then n == dest && dest !in done
                else n in done && Ctx(form, cells, done, cells[n].first, ops[1..], dest);
    var all := ops + rest;
    assert all[0] == ops[0] && all[1..] == ops[1..] + rest;
    if |ops| == 1 {
      assert ops[1..] + rest == rest;
    } else {
      Fill(form, cells, done, cells[n].first, ops[1..], dest, rest);
    }
    LevelShows(form, cells, done, w, ops[0], n, FormTree(form, all[1..]));
  }

  lemma TestShows(cells: Cells, done: set<nat>, w: Word, tail: Word, t: Tree)
    requires TestAt(cells, done, w, tail) && Shows(cells, tail, t)
    ensures Shows(cells, w, TestTree(t))
  {
    var p := cells[w.cell].rest;
    var q := cells[p.cell].first;
    var r := cells[p.cell].rest;
    var s := cells[r.cell].first;
    var s1 := cells[s.cell].rest;
    var s2 := cells[s1.cell].rest;
    assert Shows(cells, s2, Node(Leaf(Sym("v")), t));
    assert Shows(cells, s1, Node(Leaf(Sym("v")), Node(Leaf(Sym("v")), t)));
    assert Shows(cells, s, Node(Leaf(Sym("if")), Node(Leaf(Sym("v")), Node(Leaf(Sym("v")), t))));
    assert Shows(cells, r, Node(Node(Leaf(Sym("if")), Node(Leaf(Sym("v")), Node(Leaf(Sym("v")), t))), Leaf(Nil)));
    assert Shows(cells, q, Node(Leaf(Sym("v")), Leaf(Nil)));
  }

  lemma LevelShows(form: Form, cells: Cells, done: set<nat>, w: Word, op: Word, n: nat, inner: Tree)
    requires Level(form, cells, done, w, op, n) && n in cells && Shows(cells, cells[n].first, inner)
    ensures Shows(cells, w, StepTree(form, op, inner))
  {
    var f := cells[w.cell].rest;
    if form.And? {
      var t := cells[n].rest;
      assert Shows(cells, t, Node(Leaf(Truth(false)), Leaf(Nil)));
      assert Shows(cells, Ref(n), Node(inner, Node(Leaf(Truth(false)), Leaf(Nil))));
      assert Shows(cells, f, Node(Leaf(op), Node(inner, Node(Leaf(Truth(false)), Leaf(Nil)))));
    } else {
      assert Shows(cells, Ref(n), Node(inner, Leaf(Nil)));
      TestShows(cells, done, cells[w.cell].first, Ref(n), Node(inner, Leaf(Nil)));
      hide TestAt, TestTree;
      assert Shows(cells, f, Node(Leaf(op), Leaf(Nil)));
    }
  }

  // --- the loop

  /** The first operands are put away: `source` heads the rest, in the hole of cell `dest`. */
  ghost predicate Standing(form: Form, cells: Cells, done: set<nat>, list: Word, ops: seq<Word>, k: nat, source: nat,
                           ids: seq<nat>, dest: nat)
  {
    && k <= |ops| && source in cells && source !in done && source !in ids && (forall c :: c in ids ==> c !in done)
    && Spine(cells, cells[source].rest, ids, ops[k..])
    && if k == 0 then list == Ref(source)
       else
         && Ctx(form, cells, done, list, ops[..k], dest) && dest in cells && cells[dest].first == Ref(source)
         && dest != source && dest !in ids && dest !in done
  }

  /** What a turn of the loop does: `made` are the cells it made besides `n`, which is the next `dest`. */
  ghost predicate Turned(form: Form, a: Cells, b: Cells, k: nat, source: nat, f: nat, dest: nat, n: nat, made: set<nat>,
                         body: nat) {
    && source in a && f in a && source in b && b[source] == Pair(a[source].first, a[f].rest)
    && n !in a && n in b && b[n].first == Ref(source) && n !in made && (forall c :: c in made ==> c !in a && c in b)
    && f in b && Level(form, b, made + {f}, Ref(body), a[f].first, n)
    && (k > 0 ==> dest in a && dest in b && b[dest] == Pair(Ref(body), a[dest].rest))
    && forall c :: c in a && c != source && c != f && (k > 0 ==> c != dest) ==> c in b && b[c] == a[c]
  }

  /** The cells of a turn for `or`: before it, with the operand cut out, with the test built, and at its end. */
  ghost predicate OrSteps(a: Cells, mid: Cells, built: Cells, b: Cells, k: nat, source: nat, f: nat, dest: nat, n: nat,
                          made: set<nat>, test: Word, body: nat) {
    && source in a && f in a && f != source && (k > 0 ==> dest in a && dest != source && dest != f)
    && n !in a && mid == a[source := Pair(a[source].first, a[f].rest)][f := Pair(a[f].first, Nil)]
                          [n := Pair(Ref(source), Nil)]
    && (forall c :: c in mid ==> c in built && built[c] == mid[c])
    && (forall c :: c in made ==> c !in mid && c in built) && body !in built
    && (k > 0 ==> dest in built)
    && var t := built[body := Pair(test, Ref(f))];
       b == if k > 0 then t[dest := Pair(Ref(body), t[dest].rest)] else t
  }

  lemma OrStepsAt(a: Cells, mid: Cells, built: Cells, b: Cells, k: nat, source: nat, f: nat, dest: nat, n: nat,
                  made: set<nat>, test: Word, body: nat, c: nat)
    requires OrSteps(a, mid, built, b, k, source, f, dest, n, made, test, body)
    ensures c in made ==> c in b && b[c] == built[c] && c !in a && c != n && c != f
    ensures c in a && c != source && c != f && (k > 0 ==> c != dest) ==> c in b && b[c] == a[c]
  {
  }

  lemma OrStepsEnds(a: Cells, mid: Cells, built: Cells, b: Cells, k: nat, source: nat, f: nat, dest: nat, n: nat,
                    made: set<nat>, test: Word, body: nat)
    requires OrSteps(a, mid, built, b, k, source, f, dest, n, made, test, body)
    ensures source in b && b[source] == Pair(a[source].first, a[f].rest) && f in b && b[f] == Pair(a[f].first, Nil)
    ensures n in b && b[n] == Pair(Ref(source), Nil) && body in b && b[body] == Pair(test, Ref(f))
    ensures n !in a && n !in made && n != body && n != f && body !in a && source in a && f in a
    ensures k > 0 ==> dest in a && dest in b && b[dest] == Pair(Ref(body), a[dest].rest)
  {
  }

  lemma OrTurned(a: Cells, mid: Cells, built: Cells, b: Cells, k: nat, source: nat, f: nat, dest: nat, n: nat,
                 made: set<nat>, test: Word, body: nat)
    requires OrSteps(a, mid, built, b, k, source, f, dest, n, made, test, body) && TestAt(built, made, test, Ref(n))
    ensures Turned(Or, a, b, k, source, f, dest, n, made + {body}, body)
  {
    hide OrSteps, TestAt;
    OrStepsEnds(a, mid, built, b, k, source, f, dest, n, made, test, body);
    forall c { OrStepsAt(a, mid, built, b, k, source, f, dest, n, made, test, body, c); }
    assert Agree(built, b, made);
    TestKept(built, b, made, made + {body} + {f}, test, Ref(n));
  }

  lemma StepSpine(form: Form, a: Cells, b: Cells, ops: seq<Word>, k: nat, source: nat, ids: seq<nat>, dest: nat, n: nat,
                  made: set<nat>, body: nat)
    requires source in a && k < |ops| && ids != [] && Spine(a, a[source].rest, ids, ops[k..])
    requires source !in ids && (k > 0 ==> dest !in ids) && Turned(form, a, b, k, source, ids[0], dest, n, made, body)
    ensures Spine(b, b[source].rest, ids[1..], ops[k + 1..]) && a[ids[0]].first == ops[k]
    ensures forall c :: c in ids ==> c in a
  {
    hide Level;
    SpineIn(a, a[source].rest, ids, ops[k..]);
    assert ops[k..][1..] == ops[k + 1..] && ops[k..][0] == ops[k];
    SpineKept(a, b, a[ids[0]].rest, ids[1..], ops[k + 1..]);
  }

  lemma LevelMore(form: Form, cells: Cells, done: set<nat>, more: set<nat>, w: Word, op: Word, n: nat)
    requires Level(form, cells, done, w, op, n) && done <= more && n !in more && n in cells
    ensures Ctx(form, cells, more, w, [op], n)
  {
    LevelKept(form, cells, cells, done, more, w, op, n);
    assert [op][0] == op;
    hide Level;
  }

  ghost function After(done: set<nat>, k: nat, f: nat, made: set<nat>, dest: nat): set<nat> {
    done + made + {f} + if k == 0 then {} else {dest}
  }

  lemma TurnStep(form: Form, a: Cells, b: Cells, done: set<nat>, list: Word, ops: seq<Word>, k: nat, source: nat,
                 ids: seq<nat>, dest: nat, n: nat, made: set<nat>, body: nat)
    requires Standing(form, a, done, list, ops, k, source, ids, dest) && k < |ops| && ids != []
    requires forall c :: c in done ==> c in a
    requires Turned(form, a, b, k, source, ids[0], dest, n, made, body)
    ensures var after := After(done, k, ids[0], made, dest);
      && Standing(form, b, after, if k == 0 then Ref(body) else list, ops, k + 1, source, ids[1..], n)
      && forall c :: c in after ==> c in b
  {
    hide Level;
    var f := ids[0];
    var after := After(done, k, f, made, dest);
    StepSpine(form, a, b, ops, k, source, ids, dest, n, made, body);
    LevelMore(form, b, made + {f}, after, Ref(body), ops[k], n);
    assert ops[..k] + [ops[k]] == ops[..k + 1];
    hide Spine;
    if k > 0 {
      assert Agree(a, b, done);
      Extend(form, a, b, done, after, list, ops[..k], ops[k], dest, n);
    } else {
      assert ops[..1] == [ops[0]];
    }
    hide Ctx;
  }

  /** The last two operands share the cell that headed the form. */
  ghost predicate Closed(form: Form, a: Cells, b: Cells, source: nat, x: nat, y: nat) {
    && source in a && x in a && y in a && source in b && x in b && y in b
    && (form.And? ==>
          && b[source] == Pair(Sym("if"), Ref(x)) && b[x] == a[x]
          && b[y].first == a[y].first && b[y].rest.Ref? && b[y].rest.cell in b
            && b[b[y].rest.cell] == Pair(Truth(false), Nil))
    && (form.Or? ==>
          && b[source].rest == Ref(x) && b[x] == Pair(a[x].first, Nil) && b[y] == a[y]
          && exists all :: TestAt(b, all, b[source].first, Ref(y)))
    && forall c :: c in a && c != source && c != x && c != y ==> c in b && b[c] == a[c]
  }

  lemma LastShows(form: Form, a: Cells, b: Cells, source: nat, ids: seq<nat>, last: seq<Word>)
    requires |last| == |ids| == 2 && source in a && Spine(a, a[source].rest, ids, last)
    requires Closed(form, a, b, source, ids[0], ids[1])
    ensures Shows(b, Ref(source), FormTree(form, last))
  {
    var x, y := ids[0], ids[1];
    assert ids[1..] == [y] && last[1..] == [last[1]];
    assert a[x] == Pair(last[0], Ref(y)) && a[y].first == last[1];
    assert Spine(a, a[y].rest, [], []) by { assert [y][1..] == [] && [last[1]][1..] == []; }
    assert FormTree(form, last[1..]) == Leaf(last[1]);
    hide Spine;
    if form.And? {
      var t := b[y].rest;
      assert Shows(b, t, Node(Leaf(Truth(false)), Leaf(Nil)));
      assert Shows(b, Ref(y), Node(Leaf(last[1]), Node(Leaf(Truth(false)), Leaf(Nil))));
      assert Shows(b, Ref(x), Node(Leaf(last[0]), Node(Leaf(last[1]), Node(Leaf(Truth(false)), Leaf(Nil)))));
    } else {
      assert Shows(b, Ref(y), Node(Leaf(last[1]), Leaf(Nil)));
      var all :| TestAt(b, all, b[source].first, Ref(y));
      TestShows(b, all, b[source].first, Ref(y), Node(Leaf(last[1]), Leaf(Nil)));
      hide TestAt, TestTree;
      assert Shows(b, Ref(x), Node(Leaf(last[0]), Leaf(Nil)));
    }
  }

  lemma Finish(form: Form, a: Cells, b: Cells, done: set<nat>, list: Word, ops: seq<Word>, k: nat, source: nat,
               ids: seq<nat>, dest: nat)
    requires Standing(form, a, done, list, ops, k, source, ids, dest) && k + 2 == |ops| && |ids| == 2
    requires Closed(form, a, b, source, ids[0], ids[1]) && forall c :: c in done ==> c in a
    ensures Shows(b, list, FormTree(form, ops))
  {
    var last := ops[k..];
    StandingSpine(form, a, done, list, ops, k, source, ids, dest);
    LastShows(form, a, b, source, ids, last);
    if k > 0 {
      FinishContext(form, a, b, done, list, ops, k, source, ids, dest);
      hide Standing, Closed, Spine, FormTree, Shows, TestAt, Ctx;
      Fill(form, b, done, list, ops[..k], dest, last);
      assert ops[..k] + last == ops;
    } else {
      assert last == ops;
    }
  }

  lemma StandingSpine(form: Form, a: Cells, done: set<nat>, list: Word, ops: seq<Word>, k: nat, source: nat,
                      ids: seq<nat>, dest: nat)
    requires Standing(form, a, done, list, ops, k, source, ids, dest) && k <= |ops|
    ensures source in a && Spine(a, a[source].rest, ids, ops[k..]) && (k == 0 ==> list == Ref(source))
  {
    hide Spine, Ctx;
  }

  lemma FinishContext(form: Form, a: Cells, b: Cells, done: set<nat>, list: Word, ops: seq<Word>, k: nat, source: nat,
                      ids: seq<nat>, dest: nat)
    requires Standing(form, a, done, list, ops, k, source, ids, dest) && 0 < k && k + 2 == |ops| && |ids| == 2
    requires Closed(form, a, b, source, ids[0], ids[1]) && forall c :: c in done ==> c in a
    ensures Ctx(form, b, done, list, ops[..k], dest) && dest in b && b[dest].first == Ref(source)
  {
    hide Spine, TestAt, Ctx;
    assert Agree(a, b, done);
    CtxKept(form, a, b, done, list, ops[..k], dest);
  }

  /** Where the rewriting stands, and that it kept to the cells of the form. */
  ghost predicate Running(form: Form, before: Cells, cells: Cells, done: set<nat>, w: Word, ops: seq<Word>, k: nat,
                          list: nat, ids: seq<nat>, left: seq<nat>, dest: nat) {
    && Standing(form, cells, done, w, ops, k, list, left, dest)
    && (forall c :: c in done ==> c in cells) && (forall c :: c in left ==> c in ids)
    && Untouched(before, cells, {list} + IdSet(ids)) && (k > 0 ==> dest !in before)
    && forall c :: c in before ==> c in cells
  }

  lemma Begin(form: Form, cells: Cells, list: nat, ids: seq<nat>, ops: seq<Word>)
    requires list in cells && list !in ids && Spine(cells, cells[list].rest, ids, ops)
    ensures Running(form, cells, cells, {}, Ref(list), ops, 0, list, ids, ids, 0)
  {
    assert ops[0..] == ops;
    hide Spine;
  }

  lemma RunHead(form: Form, before: Cells, cells: Cells, done: set<nat>, w: Word, ops: seq<Word>, k: nat, list: nat,
                ids: seq<nat>, left: seq<nat>, dest: nat)
    requires Running(form, before, cells, done, w, ops, k, list, ids, left, dest) && k < |ops|
    ensures list in cells && left != [] && cells[list].rest == Ref(left[0]) && left[0] in cells && left[0] != list
    ensures k > 0 ==> dest in cells && dest != list && dest != left[0]
  {
    hide Ctx, Untouched;
  }

  lemma RunStep(form: Form, before: Cells, a: Cells, b: Cells, done: set<nat>, w: Word, ops: seq<Word>, k: nat,
                list: nat, ids: seq<nat>, left: seq<nat>, dest: nat, n: nat, made: set<nat>, body: nat)
    requires Running(form, before, a, done, w, ops, k, list, ids, left, dest) && k < |ops| && left != []
    requires Turned(form, a, b, k, list, left[0], dest, n, made, body)
    ensures Running(form, before, b, After(done, k, left[0], made, dest), if k == 0 then Ref(body) else w, ops, k + 1,
                    list, ids, left[1..], n)
  {
    hide Standing, Turned, After;
    TurnStep(form, a, b, done, w, ops, k, list, left, dest, n, made, body);
    TurnFrame(form, before, a, b, k, list, ids, left[0], dest, n, made, body);
  }

  lemma TurnFrame(form: Form, before: Cells, a: Cells, b: Cells, k: nat, source: nat, ids: seq<nat>, f: nat, dest: nat,
                  n: nat, made: set<nat>, body: nat)
    requires Untouched(before, a, {source} + IdSet(ids)) && Turned(form, a, b, k, source, f, dest, n, made, body)
      && f in ids
    requires (k > 0 ==> dest !in before) && forall c :: c in before ==> c in a
    ensures Untouched(before, b, {source} + IdSet(ids)) && n !in before && forall c :: c in before ==> c in b
  {
    hide Level;
  }

  lemma StateLast(form: Form, cells: Cells, done: set<nat>, w: Word, ops: seq<Word>, k: nat, source: nat, ids: seq<nat>,
                  dest: nat)
    requires Standing(form, cells, done, w, ops, k, source, ids, dest) && k + 2 == |ops|
    ensures |ids| == 2 && source in cells && cells[source].rest == Ref(ids[0]) && ids[0] in cells
    ensures cells[ids[0]].rest == Ref(ids[1]) && ids[1] in cells && ids[1] != source && ids[0] != ids[1]
      && ids[0] != source
  {
    hide Ctx;
    var last := ops[k..];
    assert |last| == 2 && Spine(cells, cells[source].rest, ids, last);
    assert |ids| == 2;
    assert Spine(cells, cells[ids[0]].rest, ids[1..], last[1..]);
    assert ids[1..][0] == ids[1];
  }

  lemma FewOperands(form: Form, cells: Cells, ops: seq<Word>)
    ensures ops == [] ==> Shows(cells, Truth(form.And?), FormTree(form, ops))
    ensures |ops| == 1 ==> Shows(cells, ops[0], FormTree(form, ops))
  {
  }

  lemma SpineHead(cells: Cells, list: nat, ids: seq<nat>, head: Word, ops: seq<Word>)
    requires Spine(cells, Ref(list), [list] + ids, [head] + ops)
    ensures list in cells && cells[list].first == head && list !in ids && Spine(cells, cells[list].rest, ids, ops)
    ensures ids != [] ==> cells[list].rest == Ref(ids[0]) && ids[0] in cells && cells[ids[0]].first == ops[0]
    ensures |ids| == |ops| && forall c :: c in ids ==> c in cells
  {
    assert ([list] + ids)[1..] == ids && ([head] + ops)[1..] == ops;
    SpineIn(cells, cells[list].rest, ids, ops);
  }

  method Unused(cells: Cells) returns (c: nat)
    ensures c !in cells
  {
    c := 0;
    var rest := cells.Keys;
    while c in cells
      invariant forall d :: d in cells && d >= c ==> d in rest
      decreases rest
    {
      rest := rest - {c};
      c := c + 1;
    }
  }

  class Reader {
    var cells: Cells

    constructor ()
      ensures cells == map[]
    {
      cells := map[];
    }

    method Cons(first: Word, rest: Word) returns (c: nat)
      modifies this
      ensures c !in old(cells) && cells == old(cells)[c := Pair(first, rest)]
    {
      c := Unused(cells);
      cells := cells[c := Pair(first, rest)];
    }

    method ListLength(list: Word, ghost ids: seq<nat>, ghost items: seq<Word>) returns (len: nat)
      requires Spine(cells, list, ids, items)
      ensures len == |ids|
    {
      len := 0;
      var pair := list;
      ghost var rest, left := ids, items;
      while pair != Nil
        invariant Spine(cells, pair, rest, left) && len + |rest| == |ids|
        decreases |rest|
      {
        pair := cells[pair.cell].rest;
        rest, left := rest[1..], left[1..];
        len := len + 1;
      }
    }

    /** A procedure that gives back its argument unless that is false; then it goes on with `tail`. */
    method MakeTest(tail: Word) returns (w: Word, ghost made: set<nat>)
      modifies this
      ensures TestAt(cells, made, w, tail)
      ensures (forall c :: c in old(cells) ==> c in cells && cells[c] == old(cells)[c])
      ensures forall c :: c in made ==> c !in old(cells) && c in cells
    {
      var s2 := Cons(Sym("v"), tail);
      var s1 := Cons(Sym("v"), Ref(s2));
      var s := Cons(Sym("if"), Ref(s1));
      var r := Cons(Ref(s), Nil);
      var q := Cons(Sym("v"), Nil);
      var p := Cons(Ref(q), Ref(r));
      var l := Cons(Sym("lambda"), Ref(p));
      w := Ref(l);
      made := {s2, s1, s, r, q, p, l};
    }

    /** One turn of the loop for `and`: the next operand gets a test of its own. */
    method AndTurn(source: nat, dest: nat, k: nat) returns (n: nat, body: nat, ghost made: set<nat>)
      requires source in cells && cells[source].rest.Ref? && cells[source].rest.cell in cells
      requires cells[source].rest.cell != source
      requires k > 0 ==> dest in cells && dest != source && dest != cells[source].rest.cell
      modifies this
      ensures Turned(And, old(cells), cells, k, source, old(cells)[source].rest.cell, dest, n, made, body)
    {
      var f := cells[source].rest.cell;
      cells := cells[source := Pair(cells[source].first, cells[f].rest)];
      var t := Cons(Truth(false), Nil);
      n := Cons(Ref(source), Ref(t));
      cells := cells[f := Pair(cells[f].first, Ref(n))];
      body := Cons(Sym("if"), Ref(f));
      if k > 0 {
        cells := cells[dest := Pair(Ref(body), cells[dest].rest)];
      }
      made := {t, body};
    }

    /** One turn of the loop for `or`: the next operand goes to a procedure that tests it. */
    method OrTurn(source: nat, dest: nat, k: nat) returns (n: nat, body: nat, ghost made: set<nat>)
      requires source in cells && cells[source].rest.Ref? && cells[source].rest.cell in cells
      requires cells[source].rest.cell != source
      requires k > 0 ==> dest in cells && dest != source && dest != cells[source].rest.cell
      modifies this
      ensures Turned(Or, old(cells), cells, k, source, old(cells)[source].rest.cell, dest, n, made, body)
    {
      hide TestAt, Turned;
      ghost var a := cells;
      var f := cells[source].rest.cell;
      cells := cells[source := Pair(cells[source].first, cells[f].rest)];
      cells := cells[f := Pair(cells[f].first, Nil)];
      n := Cons(Ref(source), Nil);
      ghost var mid := cells;
      var test, cellsMade := MakeTest(Ref(n));
      ghost var then_ := cells;
      body := Cons(test, Ref(f));
      if k > 0 {
        cells := cells[dest := Pair(Ref(body), cells[dest].rest)];
      }
      made := cellsMade + {body};
      OrTurned(a, mid, then_, cells, k, source, f, dest, n, cellsMade, test, body);
    }

    /** Rewrites `(begin e ...)` into a call of a procedure without parameters; with no expression it fails. */
    method RewriteBegin(list: nat, len: nat, ghost ids: seq<nat>, ghost body: seq<Word>) returns (w: Word, ok: bool)
      requires Spine(cells, Ref(list), [list] + ids, [Sym("begin")] + body) && len == |body| + 1
      modifies this
      ensures ok == (body != []) && Untouched(old(cells), cells, {list})
      ensures ok ==> Shows(cells, w, BeginTree(body))
    {
      if len < 2 {
        SpineHead(cells, list, ids, Sym("begin"), body);
        return Nil, false;
      }
      hide Spine;
      ghost var a := cells;
      SpineHead(a, list, ids, Sym("begin"), body);
      cells := cells[list := Pair(Nil, cells[list].rest)];
      var l := Cons(Sym("lambda"), Ref(list));
      var c := Cons(Ref(l), Nil);
      w, ok := Ref(c), true;
      SpineKept(a, cells, a[list].rest, ids, body);
      SpineShows(cells, a[list].rest, ids, body);
      hide ListOf;
      assert Shows(cells, Ref(list), Node(Leaf(Nil), ListOf(body)));
      assert Shows(cells, Ref(l), Node(Leaf(Sym("lambda")), Node(Leaf(Nil), ListOf(body))));
    }

    /** Takes the bindings of a `let` apart in place: a list of the keys and a list of the values. */
    method SplitBindings(vars: Word, ghost vids: seq<nat>, ghost qs: seq<nat>, ghost rs: seq<nat>,
                         ghost keys: seq<Word>, ghost vals: seq<Word>) returns (keyHead: Word, valueHead: Word)
      requires Bindings(cells, qs, rs, keys, vals) && Spine(cells, vars, vids, Refs(qs)) && qs != []
      requires forall c :: c in vids ==> c !in qs && c !in rs
      modifies this
      ensures Spine(cells, keyHead, qs, keys) && Spine(cells, valueHead, rs, vals)
      ensures Untouched(old(cells), cells, IdSet(qs) + IdSet(rs)) && forall c :: c in old(cells) <==> c in cells
    {
      hide Spine, Split, Bindings, Untouched;
      ghost var before := cells;
      var p := vars;
      var lastKey, lastValue := 0, 0;
      keyHead, valueHead := Nil, Nil;
      ghost var m, left := 0, vids;
      SplitNone(cells, qs, rs, keys, vals);
      assert Refs(qs)[0..] == Refs(qs);
      while p != Nil
        invariant 0 <= m <= |qs| && Split(before, cells, qs, rs, keys, vals, m, keyHead, valueHead)
        invariant Spine(cells, p, left, Refs(qs)[m..]) && (forall c :: c in left ==> c in vids)
        invariant |qs| == |rs| && (m > 0 ==> lastKey == qs[m - 1] && lastValue == rs[m - 1]) && (keyHead == Nil <==>
          m == 0)
        decreases |left|
        modifies this
      {
        ghost var a := cells;
        LeftHead(before, a, p, left, qs, rs, keys, vals, m, keyHead, valueHead);
        var q := cells[p.cell].first.cell;
        var next := cells[p.cell].rest;
        var r := cells[q].rest.cell;
        var first := keyHead == Nil;
        SplitTurn(q, r, lastKey, lastValue, first);
        assert Linked(a, cells, qs, rs, m);
        hide Linked;
        SplitStep(before, a, cells, qs, rs, keys, vals, m, keyHead, valueHead);
        LeftRest(a, cells, p, left, qs, rs, m, vids);
        if first {
          keyHead, valueHead := Ref(q), Ref(r);
        }
        lastKey, lastValue := q, r;
        p := next;
        m, left := m + 1, left[1..];
      }
      SplitAll(before, cells, p, left, qs, rs, keys, vals, m, keyHead, valueHead);
    }

    /** Links one binding's cells to the ends of the two lists. */
    method SplitTurn(q: nat, r: nat, lastKey: nat, lastValue: nat, first: bool)
      requires q in cells && r in cells && cells[q].rest == Ref(r)
      requires !first ==> lastKey in cells && lastValue in cells
      requires !first ==> lastKey != q && lastValue != q && lastKey != lastValue
      modifies this
      ensures cells == if first then old(cells)[q := Pair(old(cells)[q].first, Nil)]
                       else old(cells)[lastKey := Pair(old(cells)[lastKey].first, Ref(q))]
                            [lastValue := Pair(old(cells)[lastValue].first, Ref(r))]
                            [q := Pair(old(cells)[q].first, Nil)]
    {
      if !first {
        cells := cells[lastKey := Pair(cells[lastKey].first, Ref(q))];
        cells := cells[lastValue := Pair(cells[lastValue].first, cells[q].rest)];
      }
      cells := cells[q := Pair(cells[q].first, Nil)];
    }

    /** Rewrites `(let ((key value) ...) e ...)` into a call of a procedure with the keys as parameters;
        without bindings or without a body it fails. */
    method RewriteLet(list: nat, len: nat, ghost ids: seq<nat>, ghost items: seq<Word>, ghost vids: seq<nat>,
                      ghost qs: seq<nat>, ghost rs: seq<nat>, ghost keys: seq<Word>, ghost vals: seq<Word>)
      returns (w: Word, ok: bool)
      requires Spine(cells, Ref(list), [list] + ids, [Sym("let")] + items) && len == |items| + 1
      requires |items| > 1 ==> Bindings(cells, qs, rs, keys, vals) && Spine(cells, items[0], vids, Refs(qs))
      requires forall c :: c in vids + [list] + ids ==> c !in qs && c !in rs
      modifies this
      ensures ok == (|items| > 1 && qs != []) && (!ok ==> cells == old(cells))
      ensures ok ==> Shows(cells, w, LetTree(keys, vals, items[1..]))
      ensures Untouched(old(cells), cells, {list} + IdSet(ids) + IdSet(qs) + IdSet(rs))
    {
      hide Spine, Bindings;
      SpineHead(cells, list, ids, Sym("let"), items);
      if len < 3 {
        return Nil, false;
      }
      ghost var a, second, body := cells, ids[0], items[1..];
      assert [list] + ids == [list, second] + ids[1..] && [Sym("let")] + items == [Sym("let"), items[0]] + body;
      LetHead(a, list, second, ids[1..], items[0], body);
      var vars := cells[cells[list].rest.cell].first;
      var bindings := ListLength(vars, vids, Refs(qs));
      assert |vids| == |Refs(qs)| by { SpineLength(cells, vars, vids, Refs(qs)); }
      if bindings == 0 {
        return Nil, false;
      }
      var keyHead, valueHead := SplitBindings(vars, vids, qs, rs, keys, vals);
      ghost var b := cells;
      LetKept(a, b, list, second, ids[1..], body, qs, rs);
      var next := cells[list].rest.cell;
      cells := cells[list := Pair(Sym("lambda"), cells[list].rest)];
      cells := cells[next := Pair(keyHead, cells[next].rest)];
      var c := Cons(Ref(list), valueHead);
      w, ok := Ref(c), true;
      LetShows(b, cells, list, second, ids[1..], body, keyHead, valueHead, qs, rs, keys, vals, c);
      hide Shows, LetTree;
    }

    /** Rewrites `(and e ...)` or `(or e ...)`, reusing the cells of the list. */
    method Rewrite(form: Form, list: nat, len: nat, ghost ids: seq<nat>, ghost ops: seq<Word>) returns (w: Word)
      requires Spine(cells, Ref(list), [list] + ids, [Keyword(form)] + ops) && len == |ops| + 1
      modifies this
      ensures Shows(cells, w, FormTree(form, ops)) && Untouched(old(cells), cells, {list} + IdSet(ids))
    {
      hide Running, Spine, Shows, FormTree, Keyword, Turned, After;
      SpineHead(cells, list, ids, Keyword(form), ops);
      FewOperands(form, cells, ops);
      if len == 1 {
        return Truth(form.And?);
      }
      if len == 2 {
        return cells[cells[list].rest.cell].first;
      }
      ghost var before, done, left := cells, {}, ids;
      var dest, k, rest := 0, 0, len;
      w := Ref(list);
      Begin(form, cells, list, ids, ops);
      while rest > 3
        invariant 0 <= k && rest == len - k && 3 <= rest
          && Running(form, before, cells, done, w, ops, k, list, ids, left, dest)
        decreases rest
        modifies this
      {
        ghost var a := cells;
        RunHead(form, before, a, done, w, ops, k, list, ids, left, dest);
        var n, body;
        ghost var made;
        if form.And? {
          n, body, made := AndTurn(list, dest, k);
        } else {
          n, body, made := OrTurn(list, dest, k);
        }
        RunStep(form, before, a, cells, done, w, ops, k, list, ids, left, dest, n, made, body);
        done := After(done, k, left[0], made, dest);
        if k == 0 {
          w := Ref(body);
        }
        dest, k, rest, left := n, k + 1, rest - 1, left[1..];
      }
      Close(form, list, w, k, dest, ids, ops, before, done, left);
    }

    method CloseAnd(list: nat, x: nat, y: nat)
      requires list in cells && x in cells && y in cells && list != x && list != y && x != y
      requires cells[list].rest == Ref(x) && cells[x].rest == Ref(y)
      modifies this
      ensures Closed(And, old(cells), cells, list, x, y)
    {
      var t := Cons(Truth(false), Nil);
      cells := cells[list := Pair(Sym("if"), cells[list].rest)];
      cells := cells[y := Pair(cells[y].first, Ref(t))];
    }

    method CloseOr(list: nat, x: nat, y: nat)
      requires list in cells && x in cells && y in cells && list != x && list != y && x != y
      requires cells[list].rest == Ref(x) && cells[x].rest == Ref(y)
      modifies this
      ensures Closed(Or, old(cells), cells, list, x, y)
    {
      hide TestAt;
      var test, made := MakeTest(cells[x].rest);
      ghost var then_ := cells;
      cells := cells[list := Pair(test, cells[list].rest)];
      cells := cells[x := Pair(cells[x].first, Nil)];
      TestKept(then_, cells, made, made, test, Ref(y));
    }

    /** The last two operands share the cell that headed the form. */
    method Close(form: Form, list: nat, w: Word, k: nat, dest: nat, ghost ids: seq<nat>, ghost ops: seq<Word>,
                 ghost before: Cells, ghost done: set<nat>, ghost left: seq<nat>)
      requires Running(form, before, cells, done, w, ops, k, list, ids, left, dest) && k + 2 == |ops|
      modifies this
      ensures Shows(cells, w, FormTree(form, ops)) && Untouched(before, cells, {list} + IdSet(ids))
    {
      hide Ctx, Spine, Shows, FormTree, TestAt;
      ghost var a := cells;
      StateLast(form, a, done, w, ops, k, list, left, dest);
      var x := cells[list].rest.cell;
      var y := cells[x].rest.cell;
      if form.And? {
        CloseAnd(list, x, y);
      } else {
        CloseOr(list, x, y);
      }
      Finish(form, a, cells, done, w, ops, k, list, left, dest);
      ClosedUntouched(form, before, a, cells, list, left[0], left[1], {list} + IdSet(ids));
    }
  }

  lemma ClosedUntouched(form: Form, before: Cells, a: Cells, b: Cells, list: nat, x: nat, y: nat, own: set<nat>)
    requires Closed(form, a, b, list, x, y) && Untouched(before, a, own) && forall c :: c in before ==> c in a
    requires list in own && x in own && y in own
    ensures Untouched(before, b, own)
  {
    hide TestAt;
  }

  function Refs(qs: seq<nat>): (r: seq<Word>)
    ensures |r| == |qs| && forall i :: 0 <= i < |qs| ==> r[i] == Ref(qs[i])
  {
    seq(|qs|, i requires 0 <= i < |qs| => Ref(qs[i]))
  }

  // --- let and begin

  function LetTree(keys: seq<Word>, vals: seq<Word>, body: seq<Word>): Tree {
    Node(Node(Leaf(Sym("lambda")), Node(ListOf(keys), ListOf(body))), ListOf(vals))
  }

  function BeginTree(body: seq<Word>): Tree {
    Node(Node(Leaf(Sym("lambda")), Node(Leaf(Nil), ListOf(body))), Leaf(Nil))
  }

  /** Bindings `(key value)`, each in two cells of its own. */
  ghost predicate Bindings(cells: Cells, qs: seq<nat>, rs: seq<nat>, keys: seq<Word>, vals: seq<Word>) {
    && |qs| == |rs| == |keys| == |vals|
    && (forall i :: 0 <= i < |qs| ==>
          qs[i] in cells && rs[i] in cells && cells[qs[i]] == Pair(keys[i], Ref(rs[i]))
            && cells[rs[i]] == Pair(vals[i], Nil))
    && Apart(qs, rs)
  }

  lemma {:induction false} SpineAppend(a: Cells, b: Cells, w: Word, ids: seq<nat>, items: seq<Word>, x: nat, item: Word)
    requires Spine(a, w, ids, items) && ids != [] && x !in ids && x in b && b[x] == Pair(item, Nil)
    requires var last := ids[|ids| - 1]; last in a && last in b && b[last] == Pair(a[last].first, Ref(x))
    requires forall i :: 0 <= i < |ids| - 1 ==> ids[i] in a && ids[i] in b && b[ids[i]] == a[ids[i]]
    ensures Spine(b, w, ids + [x], items + [item])
    decreases |ids|
  {
    var more, all := ids + [x], items + [item];
    assert more[1..] == ids[1..] + [x] && all[1..] == items[1..] + [item];
    if |ids| == 1 {
      assert ids[1..] == [] && items[1..] == [];
      assert more[1..] == [x] && all[1..] == [item];
      assert [x][1..] == [] && [item][1..] == [];
      assert Spine(b, Nil, [], []);
      assert Spine(b, Ref(x), [x], [item]);
    } else {
      assert ids[1..][|ids| - 2] == ids[|ids| - 1];
      SpineAppend(a, b, a[ids[0]].rest, ids[1..], items[1..], x, item);
    }
  }

  /** The keys seen so far are one list and their values another; the other bindings are as they were. */
  ghost predicate Split(before: Cells, cells: Cells, qs: seq<nat>, rs: seq<nat>, keys: seq<Word>, vals: seq<Word>,
                        m: nat, keyHead: Word, valueHead: Word) {
    && m <= |qs| == |rs| == |keys| == |vals|
    && Spine(cells, keyHead, qs[..m], keys[..m]) && Spine(cells, valueHead, rs[..m], vals[..m])
    && Waiting(before, cells, qs, rs, m)
    && Untouched(before, cells, IdSet(qs) + IdSet(rs)) && forall c :: c in before <==> c in cells
  }

  /** Bindings from the `m`th on are as they were. */
  ghost predicate Waiting(before: Cells, cells: Cells, qs: seq<nat>, rs: seq<nat>, m: nat) {
    |qs| == |rs| && forall i :: m <= i < |qs| ==>
      && qs[i] in cells && rs[i] in cells && qs[i] in before && rs[i] in before
      && cells[qs[i]] == before[qs[i]] && cells[rs[i]] == before[rs[i]]
  }

  /** The cells after one binding more was linked to the ends of the lists. */
  ghost predicate Linked(a: Cells, b: Cells, qs: seq<nat>, rs: seq<nat>, m: nat) {
    && m < |qs| == |rs| && qs[m] in a && qs[m] in b && b[qs[m]] == Pair(a[qs[m]].first, Nil)
    && (m > 0 ==>
          && qs[m - 1] in a && rs[m - 1] in a && qs[m - 1] in b && rs[m - 1] in b
          && b[qs[m - 1]] == Pair(a[qs[m - 1]].first, Ref(qs[m]))
            && b[rs[m - 1]] == Pair(a[rs[m - 1]].first, Ref(rs[m])))
    && (forall c :: c in a && c != qs[m] && (m > 0 ==> c != qs[m - 1] && c != rs[m - 1]) ==> c in b && b[c] == a[c])
    && forall c :: c in a <==> c in b
  }

  lemma LinkKeys(a: Cells, b: Cells, qs: seq<nat>, rs: seq<nat>, keys: seq<Word>, vals: seq<Word>, m: nat,
                 keyHead: Word)
    requires Linked(a, b, qs, rs, m) && m > 0 && |keys| == |qs| && Apart(qs, rs) && a[qs[m]].first == keys[m]
    requires Spine(a, keyHead, qs[..m], keys[..m])
    ensures Spine(b, keyHead, qs[..m + 1], keys[..m + 1])
  {
    SpineIn(a, keyHead, qs[..m], keys[..m]);
    assert qs[..m + 1] == qs[..m] + [qs[m]] && keys[..m + 1] == keys[..m] + [keys[m]];
    forall i | 0 <= i < m - 1 ensures qs[..m][i] in a && qs[..m][i] in b && b[qs[..m][i]] == a[qs[..m][i]] {
      assert qs[i] in qs[..m];
    }
    hide Spine;
    SpineAppend(a, b, keyHead, qs[..m], keys[..m], qs[m], keys[m]);
  }

  lemma LinkValues(a: Cells, b: Cells, qs: seq<nat>, rs: seq<nat>, vals: seq<Word>, m: nat, valueHead: Word)
    requires Linked(a, b, qs, rs, m) && m > 0 && |vals| == |rs| && Apart(qs, rs)
    requires rs[m] in a && a[rs[m]] == Pair(vals[m], Nil) && Spine(a, valueHead, rs[..m], vals[..m])
    ensures Spine(b, valueHead, rs[..m + 1], vals[..m + 1])
  {
    SpineIn(a, valueHead, rs[..m], vals[..m]);
    assert rs[..m + 1] == rs[..m] + [rs[m]] && vals[..m + 1] == vals[..m] + [vals[m]];
    forall i | 0 <= i < m - 1 ensures rs[..m][i] in a && rs[..m][i] in b && b[rs[..m][i]] == a[rs[..m][i]] {
      assert rs[i] in rs[..m];
    }
    hide Spine;
    SpineAppend(a, b, valueHead, rs[..m], vals[..m], rs[m], vals[m]);
  }

  /** No cell serves two bindings. */
  ghost predicate Apart(qs: seq<nat>, rs: seq<nat>) {
    && (forall i, j :: 0 <= i < |qs| && 0 <= j < |rs| ==> qs[i] != rs[j])
    && (forall i, j :: 0 <= i < j < |qs| ==> qs[i] != qs[j]) && forall i, j :: 0 <= i < j < |rs| ==> rs[i] != rs[j]
  }

  lemma LinkRest(before: Cells, a: Cells, b: Cells, qs: seq<nat>, rs: seq<nat>, m: nat)
    requires Linked(a, b, qs, rs, m) && Apart(qs, rs) && Waiting(before, a, qs, rs, m)
    requires Untouched(before, a, IdSet(qs) + IdSet(rs)) && forall c :: c in before <==> c in a
    ensures Waiting(before, b, qs, rs, m + 1) && Untouched(before, b, IdSet(qs) + IdSet(rs))
      && forall c :: c in before <==> c in b
  {
    assert qs[m] in qs && (m > 0 ==> qs[m - 1] in qs && rs[m - 1] in rs);
  }

  lemma SplitStep(before: Cells, a: Cells, b: Cells, qs: seq<nat>, rs: seq<nat>, keys: seq<Word>, vals: seq<Word>,
                  m: nat, keyHead: Word, valueHead: Word)
    requires Bindings(before, qs, rs, keys, vals) && Split(before, a, qs, rs, keys, vals, m, keyHead, valueHead)
      && m < |qs|
    requires Linked(a, b, qs, rs, m)
    ensures Split(before, b, qs, rs, keys, vals, m + 1, if m == 0 then Ref(qs[0]) else keyHead,
                  if m == 0 then Ref(rs[0]) else valueHead)
  {
    assert a[qs[m]] == Pair(keys[m], Ref(rs[m])) && a[rs[m]] == Pair(vals[m], Nil);
    assert Apart(qs, rs);
    LinkRest(before, a, b, qs, rs, m);
    if m == 0 {
      SpineOne(b, qs[0], keys[0]);
      SpineOne(b, rs[0], vals[0]);
      assert qs[..1] == [qs[0]] && rs[..1] == [rs[0]] && keys[..1] == [keys[0]] && vals[..1] == [vals[0]];
    } else {
      LinkKeys(a, b, qs, rs, keys, vals, m, keyHead);
      LinkValues(a, b, qs, rs, vals, m, valueHead);
    }
    hide Spine, Untouched, Waiting, Linked;
  }

  lemma SplitNone(cells: Cells, qs: seq<nat>, rs: seq<nat>, keys: seq<Word>, vals: seq<Word>)
    requires Bindings(cells, qs, rs, keys, vals)
    ensures Split(cells, cells, qs, rs, keys, vals, 0, Nil, Nil) && |qs| == |rs|
  {
    assert qs[..0] == [] && rs[..0] == [] && keys[..0] == [] && vals[..0] == [];
    assert Spine(cells, Nil, [], []);
  }

  lemma LeftHead(before: Cells, a: Cells, p: Word, left: seq<nat>, qs: seq<nat>, rs: seq<nat>, keys: seq<Word>,
                 vals: seq<Word>, m: nat, keyHead: Word, valueHead: Word)
    requires Bindings(before, qs, rs, keys, vals) && Split(before, a, qs, rs, keys, vals, m, keyHead, valueHead)
    requires p != Nil && Spine(a, p, left, Refs(qs)[m..]) && m <= |qs|
    ensures p.Ref? && p.cell in a && left != [] && m < |qs| && |qs| == |rs| == |keys| == |vals|
      && a[p.cell].first == Ref(qs[m])
    ensures p.cell == left[0] && qs[m] in a && rs[m] in a && a[qs[m]] == Pair(keys[m], Ref(rs[m]))
    ensures forall c :: c in qs || c in rs ==> c in before && c in a
    ensures m > 0 ==> qs[m - 1] != qs[m] && rs[m - 1] != qs[m] && qs[m - 1] != rs[m - 1]
    ensures m > 0 ==> qs[m - 1] in a && rs[m - 1] in a
    ensures m > 0 ==> qs[m - 1] != rs[m] && rs[m - 1] != rs[m]
  {
    hide Untouched;
    assert Refs(qs)[m..][0] == Refs(qs)[m];
  }

  lemma LeftRest(a: Cells, b: Cells, p: Word, left: seq<nat>, qs: seq<nat>, rs: seq<nat>, m: nat, vids: seq<nat>)
    requires m < |qs| && p.Ref? && p.cell in a && Spine(a, p, left, Refs(qs)[m..]) && left != []
    requires (forall c :: c in left ==> c in vids) && (forall c :: c in vids ==> c !in qs && c !in rs)
    requires forall c :: c in a && c !in qs && c !in rs ==> c in b && b[c] == a[c]
    ensures Spine(b, a[p.cell].rest, left[1..], Refs(qs)[m + 1..])
  {
    assert Refs(qs)[m..][1..] == Refs(qs)[m + 1..];
    SpineIn(a, p, left, Refs(qs)[m..]);
    SpineKept(a, b, a[p.cell].rest, left[1..], Refs(qs)[m + 1..]);
  }

  lemma SplitAll(before: Cells, cells: Cells, p: Word, left: seq<nat>, qs: seq<nat>, rs: seq<nat>, keys: seq<Word>,
                 vals: seq<Word>, m: nat, keyHead: Word, valueHead: Word)
    requires Split(before, cells, qs, rs, keys, vals, m, keyHead, valueHead) && p == Nil && m <= |qs|
    requires Spine(cells, p, left, Refs(qs)[m..])
    ensures Spine(cells, keyHead, qs, keys) && Spine(cells, valueHead, rs, vals)
    ensures Untouched(before, cells, IdSet(qs) + IdSet(rs)) && forall c :: c in before <==> c in cells
  {
    assert m == |qs|;
    assert qs[..m] == qs && rs[..m] == rs && keys[..m] == keys && vals[..m] == vals;
  }

  lemma LetHead(cells: Cells, list: nat, second: nat, ids: seq<nat>, vars: Word, body: seq<Word>)
    requires Spine(cells, Ref(list), [list, second] + ids, [Sym("let"), vars] + body)
    ensures list in cells && second in cells && cells[list].rest == Ref(second) && cells[second].first == vars
      && list != second
    ensures Spine(cells, cells[second].rest, ids, body) && list !in ids && second !in ids && forall c :: c in ids ==>
      c in cells
  {
    var all, items := [list, second] + ids, [Sym("let"), vars] + body;
    assert all[1..] == [second] + ids && items[1..] == [vars] + body;
    assert second in all[1..];
    SpineHead(cells, second, ids, vars, body);
  }

  lemma LetKept(a: Cells, b: Cells, list: nat, second: nat, ids: seq<nat>, body: seq<Word>, qs: seq<nat>, rs: seq<nat>)
    requires list in a && second in a && a[list].rest == Ref(second) && Spine(a, a[second].rest, ids, body)
    requires (forall c :: c in ids ==> c in a) && Untouched(a, b, IdSet(qs) + IdSet(rs))
    requires forall c :: c in [list, second] + ids ==> c !in qs && c !in rs
    ensures list in b && second in b && b[list] == a[list] && b[second] == a[second]
      && Spine(b, b[second].rest, ids, body)
  {
    assert list in [list, second] + ids && second in [list, second] + ids;
    SpineKept(a, b, a[second].rest, ids, body);
  }

  lemma LetShows(b: Cells, d: Cells, list: nat, second: nat, ids: seq<nat>, body: seq<Word>, keyHead: Word,
                 valueHead: Word, qs: seq<nat>, rs: seq<nat>, keys: seq<Word>, vals: seq<Word>, c: nat)
    requires list in b && second in b && list != second && b[list].rest == Ref(second)
      && Spine(b, b[second].rest, ids, body)
    requires Spine(b, keyHead, qs, keys) && Spine(b, valueHead, rs, vals) && list !in ids && second !in ids
    requires list !in qs && list !in rs && second !in qs && second !in rs
    requires c !in b
    requires d == b[list := Pair(Sym("lambda"), b[list].rest)][second := Pair(keyHead, b[second].rest)]
                   [c := Pair(Ref(list), valueHead)]
    ensures Shows(d, Ref(c), LetTree(keys, vals, body))
  {
    SpineIn(b, keyHead, qs, keys);
    SpineIn(b, valueHead, rs, vals);
    SpineIn(b, b[second].rest, ids, body);
    SpineKept(b, d, keyHead, qs, keys);
    SpineKept(b, d, valueHead, rs, vals);
    SpineKept(b, d, b[second].rest, ids, body);
    SpineShows(d, keyHead, qs, keys);
    SpineShows(d, valueHead, rs, vals);
    SpineShows(d, b[second].rest, ids, body);
    hide Spine, ListOf;
    assert Shows(d, Ref(second), Node(ListOf(keys), ListOf(body)));
    assert Shows(d, Ref(list), Node(Leaf(Sym("lambda")), Node(ListOf(keys), ListOf(body))));
  }

  lemma SpineOne(cells: Cells, x: nat, item: Word)
    requires x in cells && cells[x] == Pair(item, Nil)
    ensures Spine(cells, Ref(x), [x], [item])
  {
    assert [x][1..] == [] && [item][1..] == [];
    assert Spine(cells, Nil, [], []);
  }

  lemma TestKept(a: Cells, b: Cells, done: set<nat>, more: set<nat>, w: Word, tail: Word)
    requires TestAt(a, done, w, tail) && Agree(a, b, done) && done <= more
    ensures TestAt(b, more, w, tail)
  {
  }
}
