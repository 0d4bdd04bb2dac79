/** The lists that the rewriting leaves behind, read as the compiler reads them, mean what the derived forms mean. */
module SchemeReader {
  import opened Wrappers
  import opened Scheme
  import opened SchemeAlike
  import opened SchemeDerived
  import opened SchemeRelink

  // --- how the compiler reads a structure of cells

  /** A symbol is looked up among the variables first: only where none of them has its name is it a keyword. */
  predicate Syntax(scope: seq<seq<Symbol>>, t: Tree, x: Symbol) {
    t == Leaf(Sym(x)) && !InScope(scope, x)
  }

  /** Keywords that have no expression here. */
  predicate Foreign(scope: seq<seq<Symbol>>, t: Tree) {
    Syntax(scope, t, "define") || Syntax(scope, t, "set!") || Syntax(scope, t, "import")
  }

  ghost function Read(t: Tree, scope: seq<seq<Symbol>>): Option<Expr>
    decreases t, 1
  {
    match t
    case Leaf(w) => ReadWord(w)
    case Node(head, rest) =>
      if Foreign(scope, head) then None
      else if Syntax(scope, head, "quote") then ReadQuote(rest)
      else if Syntax(scope, head, "if") then ReadIf(ReadAll(rest, scope))
      else if Syntax(scope, head, "lambda") then
        if rest.Node? && Names(rest.first).Some? then
          ReadLambda(Names(rest.first).value, ReadAll(rest.rest, [Names(rest.first).value] + scope))
        else None
      else ReadCall(Read(head, scope), ReadAll(rest, scope))
  }

  ghost function ReadAll(t: Tree, scope: seq<seq<Symbol>>): Option<seq<Expr>>
    decreases t, 0
  {
    match t
    case Leaf(w) => if w == Nil then Some([]) else None
    case Node(first, rest) => Joined(Read(first, scope), ReadAll(rest, scope))
  }

  function ReadWord(w: Word): Option<Expr> {
    match w
    case Truth(b) => Some(Flag(b))
    case Number(i) => Some(Num(i))
    case Sym(x) => Some(Var(x))
    case _ => None
  }

  function ReadIf(a: Option<seq<Expr>>): Option<Expr> {
    if a.Some? && |a.value| == 3 then Some(If(a.value[0], a.value[1], a.value[2])) else None
  }

  function ReadLambda(params: seq<Symbol>, body: Option<seq<Expr>>): Option<Expr> {
    if body.Some? && body.value != [] then Some(Lambda(params, Front(body.value), End(body.value))) else None
  }

  function ReadCall(f: Option<Expr>, args: Option<seq<Expr>>): Option<Expr> {
    if f.Some? && args.Some? then Some(Call(f.value, args.value)) else None
  }

  function ReadQuote(rest: Tree): Option<Expr> {
    if rest.Node? && rest.rest == Leaf(Nil)
      && DatumOf(rest.first).Some? then Some(Quote(DatumOf(rest.first).value)) else None
  }

  function DatumOf(t: Tree): Option<Datum> {
    match t
    case Leaf(Nil) => Some(NilD)
    case Leaf(Truth(b)) => Some(BoolD(b))
    case Leaf(Number(i)) => Some(IntD(i))
    case Leaf(Sym(x)) => Some(SymD(x))
    case Leaf(Ref(_)) => None
    case Node(a, b) =>
      if DatumOf(a).Some? && DatumOf(b).Some? then Some(PairD(DatumOf(a).value, DatumOf(b).value)) else None
  }

  function Names(t: Tree): Option<seq<Symbol>> {
    match t
    case Leaf(w) => if w == Nil then Some([]) else None
    case Node(first, rest) =>
      if first.Leaf? && first.word.Sym? && Names(rest).Some? then Some([first.word.name] + Names(rest).value) else None
  }

  function Joined(e: Option<Expr>, es: Option<seq<Expr>>): Option<seq<Expr>> {
    if e.Some? && es.Some? then Some([e.value] + es.value) else None
  }

  function Front(es: seq<Expr>): seq<Expr>
    requires es != []
  {
    es[..|es| - 1]
  }

  function End(es: seq<Expr>): Expr
    requires es != []
  {
    es[|es| - 1]
  }

  predicate IsKeyword(x: Symbol) {
    x in {"define", "set!", "import", "quote", "if", "lambda"}
  }

  /** Scopes with the same keywords among their variables. */
  ghost predicate Shadowing(a: seq<seq<Symbol>>, b: seq<seq<Symbol>>) {
    forall x :: IsKeyword(x) ==> (InScope(a, x) <==> InScope(b, x))
  }

  lemma InnerScope(names: seq<Symbol>, scope: seq<seq<Symbol>>, x: Symbol)
    ensures InScope([names] + scope, x) <==> x in names || InScope(scope, x)
  {
    if InScope(scope, x) {
      var k :| 0 <= k < |scope| && x in scope[k];
      assert x in ([names] + scope)[k + 1];
    }
    if x in names {
      assert x in ([names] + scope)[0];
    }
    if InScope([names] + scope, x) && x !in names {
      var k :| 0 <= k < |[names] + scope| && x in ([names] + scope)[k];
      assert x in scope[k - 1];
    }
  }

  lemma InnerShadowing(names: seq<Symbol>, a: seq<seq<Symbol>>, b: seq<seq<Symbol>>)
    requires Shadowing(a, b)
    ensures Shadowing([names] + a, [names] + b)
  {
    forall x | IsKeyword(x) ensures InScope([names] + a, x) <==> InScope([names] + b, x) {
      InnerScope(names, a, x);
      InnerScope(names, b, x);
    }
  }

  /** A frame that binds no keyword changes no reading. */
  lemma PlainFrame(names: seq<Symbol>, scope: seq<seq<Symbol>>)
    requires forall x :: x in names ==> !IsKeyword(x)
    ensures Shadowing(scope, [names] + scope)
  {
    forall x | IsKeyword(x) ensures InScope(scope, x) <==> InScope([names] + scope, x) {
      InnerScope(names, scope, x);
    }
  }

  lemma {:induction false} ReadSame(t: Tree, a: seq<seq<Symbol>>, b: seq<seq<Symbol>>)
    requires Shadowing(a, b)
    ensures Read(t, a) == Read(t, b)
    decreases t, 1
  {
    if t.Node? {
      ReadAllSame(t.rest, a, b);
      ReadSame(t.first, a, b);
      if t.rest.Node? && Names(t.rest.first).Some? {
        var names := Names(t.rest.first).value;
        InnerShadowing(names, a, b);
        ReadAllSame(t.rest.rest, [names] + a, [names] + b);
      }
      SyntaxSame(t.first, a, b);
      hide Shadowing, Syntax, Names;
    }
  }

  lemma SyntaxSame(t: Tree, a: seq<seq<Symbol>>, b: seq<seq<Symbol>>)
    requires Shadowing(a, b)
    ensures Foreign(a, t) == Foreign(b, t) && Syntax(a, t, "quote") == Syntax(b, t, "quote")
    ensures Syntax(a, t, "if") == Syntax(b, t, "if") && Syntax(a, t, "lambda") == Syntax(b, t, "lambda")
  {
    assert IsKeyword("define") && IsKeyword("set!") && IsKeyword("import");
    assert IsKeyword("quote") && IsKeyword("if") && IsKeyword("lambda");
  }

  lemma {:induction false} ReadAllSame(t: Tree, a: seq<seq<Symbol>>, b: seq<seq<Symbol>>)
    requires Shadowing(a, b)
    ensures ReadAll(t, a) == ReadAll(t, b)
    decreases t, 0
  {
    if t.Node? {
      ReadSame(t.first, a, b);
      ReadAllSame(t.rest, a, b);
    }
  }

  // --- operands in place of the words that stand for them

  /** The structure with what the cells at its ends show. */
  ghost function Expand(t: Tree, sub: nat -> Tree): Tree {
    match t
    case Leaf(Ref(c)) => sub(c)
    case Leaf(_) => t
    case Node(a, b) => Node(Expand(a, sub), Expand(b, sub))
  }

  function Ends(t: Tree): set<nat> {
    match t
    case Leaf(Ref(c)) => {c}
    case Leaf(_) => {}
    case Node(a, b) => Ends(a) + Ends(b)
  }

  lemma {:induction false} ExpandShows(cells: Cells, w: Word, t: Tree, sub: nat -> Tree)
    requires Shows(cells, w, t) && forall c :: c in Ends(t) ==> Shows(cells, Ref(c), sub(c))
    ensures Shows(cells, w, Expand(t, sub))
    decreases t
  {
    if t.Node? {
      ExpandShows(cells, cells[w.cell].first, t.first, sub);
      ExpandShows(cells, cells[w.cell].rest, t.rest, sub);
    }
  }

  /** What is shown is shown by cells outside the set. */
  ghost predicate Elsewhere(cells: Cells, w: Word, t: Tree, s: set<nat>)
    decreases t
  {
    t.Node? ==> w.Ref? && w.cell in cells && w.cell !in s
                && Elsewhere(cells, cells[w.cell].first, t.first, s) && Elsewhere(cells, cells[w.cell].rest, t.rest, s)
  }

  lemma {:induction false} ShowsKept(a: Cells, b: Cells, w: Word, t: Tree, s: set<nat>)
    requires Shows(a, w, t) && Elsewhere(a, w, t, s) && Untouched(a, b, s)
    ensures Shows(b, w, t)
    decreases t
  {
    if t.Node? {
      ShowsKept(a, b, a[w.cell].first, t.first, s);
      ShowsKept(a, b, a[w.cell].rest, t.rest, s);
    }
  }

  /** A structure without open ends is all there is at a word. */
  lemma {:induction false} ShowsOnce(cells: Cells, w: Word, t: Tree, u: Tree)
    requires Shows(cells, w, t) && Shows(cells, w, u) && Ends(t) == {} && Ends(u) == {}
    ensures t == u
    decreases t
  {
    if t.Node? && u.Node? {
      ShowsOnce(cells, cells[w.cell].first, t.first, u.first);
      ShowsOnce(cells, cells[w.cell].rest, t.rest, u.rest);
    }
  }

  /** Operands that share no cell with the list are in their places after the rewriting, as they were before it. */
  lemma Relinked(before: Cells, after: Cells, w: Word, t: Tree, sub: nat -> Tree, own: set<nat>)
    requires Shows(after, w, t) && Untouched(before, after, own)
    requires forall c :: c in Ends(t) ==> Shows(before, Ref(c), sub(c)) && Elsewhere(before, Ref(c), sub(c), own)
    ensures Shows(after, w, Expand(t, sub))
  {
    forall c | c in Ends(t) ensures Shows(after, Ref(c), sub(c)) {
      ShowsKept(before, after, Ref(c), sub(c), own);
    }
    ExpandShows(after, w, t, sub);
  }

  ghost function Operand(w: Word, sub: nat -> Tree): Tree {
    Expand(Leaf(w), sub)
  }

  /** The operands, read in some scope. */
  ghost function Operands(ops: seq<Word>, sub: nat -> Tree, scope: seq<seq<Symbol>>): (r: Option<seq<Expr>>)
    ensures r.Some? ==> |r.value| == |ops|
  {
    if ops == [] then Some([])
    else Joined(Read(Operand(ops[0], sub), scope), Operands(ops[1..], sub, scope))
  }

  lemma {:induction false} OperandsSame(ops: seq<Word>, sub: nat -> Tree, a: seq<seq<Symbol>>, b: seq<seq<Symbol>>)
    requires Shadowing(a, b)
    ensures Operands(ops, sub, a) == Operands(ops, sub, b)
  {
    if ops != [] {
      ReadSame(Operand(ops[0], sub), a, b);
      OperandsSame(ops[1..], sub, a, b);
      hide Shadowing, Read;
    }
  }

  lemma {:induction false} ReadList(ws: seq<Word>, sub: nat -> Tree, scope: seq<seq<Symbol>>)
    ensures ReadAll(Expand(ListOf(ws), sub), scope) == Operands(ws, sub, scope)
  {
    if ws != [] {
      ReadList(ws[1..], sub, scope);
      hide Read;
    }
  }

  // --- and, or

  ghost function CoreForm(form: Form, es: seq<Expr>): Expr {
    if form.And? then AndForm(es) else OrForm(es)
  }

  /** The keywords that the rewriting uses are keywords where it stands. */
  predicate Clear(form: Form, scope: seq<seq<Symbol>>) {
    !InScope(scope, "if") && (form.Or? ==> !InScope(scope, "lambda"))
  }

  lemma ReadAnd(op: Word, inner: Tree, sub: nat -> Tree, scope: seq<seq<Symbol>>)
    ensures var args := Joined(Read(Operand(op, sub), scope),
      Joined(Read(Expand(inner, sub), scope), Some([Flag(false)])));
      Read(Expand(StepTree(And, op, inner), sub), scope)
      == if !InScope(scope, "if") then ReadIf(args) else ReadCall(Some(Var("if")), args)
  {
    var no := Node(Leaf(Truth(false)), Leaf(Nil));
    assert Expand(no, sub) == no;
    assert [Flag(false)] + [] == [Flag(false)];
    assert ReadAll(no, scope) == Joined(Some(Flag(false)), Some([]));
    var tail := Node(Expand(inner, sub), no);
    assert ReadAll(tail, scope) == Joined(Read(Expand(inner, sub), scope), Some([Flag(false)]));
    var all := Node(Operand(op, sub), tail);
    assert ReadAll(all, scope) == Joined(Read(Operand(op, sub), scope), ReadAll(tail, scope));
    assert Expand(Node(inner, no), sub) == tail;
    assert Expand(Node(Leaf(op), Node(inner, no)), sub) == all;
    assert Expand(StepTree(And, op, inner), sub) == Node(Leaf(Sym("if")), all);
  }

  lemma ExpandTest(inner: Tree, sub: nat -> Tree)
    ensures Expand(TestTree(Node(inner, Leaf(Nil))), sub) == TestTree(Node(Expand(inner, sub), Leaf(Nil)))
  {
    var tail := Node(inner, Leaf(Nil));
    assert Expand(tail, sub) == Node(Expand(inner, sub), Leaf(Nil));
    var three := Node(Leaf(Sym("v")), Node(Leaf(Sym("v")), tail));
    assert Expand(three, sub) == Node(Leaf(Sym("v")), Node(Leaf(Sym("v")), Expand(tail, sub)));
    var choice := Node(Leaf(Sym("if")), three);
    assert Expand(choice, sub) == Node(Leaf(Sym("if")), Expand(three, sub));
    var body := Node(choice, Leaf(Nil));
    assert Expand(body, sub) == Node(Expand(choice, sub), Leaf(Nil));
    var vars := Node(Leaf(Sym("v")), Leaf(Nil));
    assert Expand(vars, sub) == vars;
    assert Expand(Node(vars, body), sub) == Node(vars, Expand(body, sub));
  }

  function ChoiceTree(inner: Tree): Tree {
    Node(Leaf(Sym("if")), Node(Leaf(Sym(V)), Node(Leaf(Sym(V)), Node(inner, Leaf(Nil)))))
  }

  lemma ReadChoice(inner: Tree, scope: seq<seq<Symbol>>)
    requires !InScope(scope, "if")
    ensures var e := Read(inner, scope);
      Read(ChoiceTree(inner), scope) == if e.Some? then Some(If(Var(V), Var(V), e.value)) else None
  {
    var e := Read(inner, scope);
    var tail := Node(inner, Leaf(Nil));
    assert ReadAll(tail, scope) == Joined(e, Some([]));
    var two := Node(Leaf(Sym(V)), tail);
    assert ReadAll(two, scope) == Joined(Some(Var(V)), ReadAll(tail, scope));
    var three := Node(Leaf(Sym(V)), two);
    assert ReadAll(three, scope) == Joined(Some(Var(V)), ReadAll(two, scope));
    assert Read(Node(Leaf(Sym("if")), three), scope) == ReadIf(ReadAll(three, scope));
  }

  lemma ReadProcedure(choice: Tree, scope: seq<seq<Symbol>>)
    requires !InScope(scope, "lambda")
    ensures var e := Read(choice, [[V]] + scope);
      Read(Node(Leaf(Sym("lambda")), Node(Node(Leaf(Sym(V)), Leaf(Nil)), Node(choice, Leaf(Nil)))), scope)
      == if e.Some? then Some(Lambda([V], [], e.value)) else None
  {
    var e := Read(choice, [[V]] + scope);
    var vars, body := Node(Leaf(Sym(V)), Leaf(Nil)), Node(choice, Leaf(Nil));
    assert [V] + [] == [V];
    assert Names(vars) == Some([V] + []);
    assert ReadAll(body, [[V]] + scope) == Joined(e, Some([]));
    if e.Some? {
      assert [e.value] + [] == [e.value] && Front([e.value]) == [];
    }
  }

  /** The procedure the rewriting of `or` puts before an operand. */
  lemma ReadTest(inner: Tree, sub: nat -> Tree, scope: seq<seq<Symbol>>)
    requires Clear(Or, scope)
    ensures var e := Read(Expand(inner, sub), [[V]] + scope);
      Read(Expand(TestTree(Node(inner, Leaf(Nil))), sub), scope)
      == if e.Some? then Some(Lambda([V], [], If(Var(V), Var(V), e.value))) else None
  {
    hide Read, Expand, InScope;
    ExpandTest(inner, sub);
    InnerScope([V], scope, "if");
    ReadChoice(Expand(inner, sub), [[V]] + scope);
    ReadProcedure(ChoiceTree(Expand(inner, sub)), scope);
  }

  lemma ReadOr(op: Word, inner: Tree, sub: nat -> Tree, scope: seq<seq<Symbol>>)
    requires Clear(Or, scope)
    ensures var a, e := Read(Operand(op, sub), scope), Read(Expand(inner, sub), [[V]] + scope);
      Read(Expand(StepTree(Or, op, inner), sub), scope)
      == if a.Some? && e.Some? then Some(Call(Lambda([V], [], If(Var(V), Var(V), e.value)), [a.value])) else None
  {
    var test, a := TestTree(Node(inner, Leaf(Nil))), Read(Operand(op, sub), scope);
    ReadTest(inner, sub, scope);
    ReadApplied(test, op, sub, scope);
    hide Expand, TestTree, Read;
  }

  /** A procedure with one operand behind it. */
  lemma ReadApplied(test: Tree, op: Word, sub: nat -> Tree, scope: seq<seq<Symbol>>)
    requires test.Node?
    ensures var f, a := Read(Expand(test, sub), scope), Read(Operand(op, sub), scope);
      Read(Expand(Node(test, Node(Leaf(op), Leaf(Nil))), sub), scope)
      == if f.Some? && a.Some? then Some(Call(f.value, [a.value])) else None
  {
    var a := Read(Operand(op, sub), scope);
    var args := Node(Operand(op, sub), Leaf(Nil));
    assert ReadAll(args, scope) == Joined(a, Some([]));
    assert Expand(Node(Leaf(op), Leaf(Nil)), sub) == args;
    assert Expand(test, sub).Node?;
    if a.Some? {
      assert [a.value] + [] == [a.value];
    }
  }

  /** Where its keywords are clear, the rewritten list reads as the core form of the operands. */
  lemma {:induction false} ReadForm(form: Form, ops: seq<Word>, sub: nat -> Tree, scope: seq<seq<Symbol>>)
    requires |ops| > 1 ==> Clear(form, scope)
    requires Operands(ops, sub, scope).Some?
    ensures Read(Expand(FormTree(form, ops), sub), scope) == Some(CoreForm(form, Operands(ops, sub, scope).value))
  {
    if |ops| > 1 {
      var es := Operands(ops, sub, scope).value;
      assert es[1..] == Operands(ops[1..], sub, scope).value;
      if form.And? {
        ReadForm(form, ops[1..], sub, scope);
        ReadAnd(ops[0], FormTree(form, ops[1..]), sub, scope);
      } else {
        PlainFrame([V], scope);
        OperandsSame(ops[1..], sub, scope, [[V]] + scope);
        InnerScope([V], scope, "if");
        InnerScope([V], scope, "lambda");
        ReadForm(form, ops[1..], sub, [[V]] + scope);
        ReadOr(ops[0], FormTree(form, ops[1..]), sub, scope);
      }
      hide Read, StepTree;
    } else if |ops| == 1 {
      assert ops[1..] == [];
    }
  }

  // --- let and begin

  lemma {:induction false} ListNames(ks: seq<Word>, keys: seq<Symbol>, sub: nat -> Tree)
    requires |ks| == |keys| && forall i :: 0 <= i < |ks| ==> ks[i] == Sym(keys[i])
    ensures Expand(ListOf(ks), sub) == ListOf(ks) && Names(ListOf(ks)) == Some(keys)
  {
    if ks != [] {
      ListNames(ks[1..], keys[1..], sub);
      assert keys == [keys[0]] + keys[1..];
    }
  }

  /** A procedure called on the spot. */
  lemma ReadLambdaCall(names: Tree, params: seq<Symbol>, body: seq<Word>, vals: seq<Word>, sub: nat -> Tree,
                       scope: seq<seq<Symbol>>)
    requires !InScope(scope, "lambda") && body != [] && Expand(names, sub) == names && Names(names) == Some(params)
    requires Operands(vals, sub, scope).Some? && Operands(body, sub, [params] + scope).Some?
    ensures var vs, es := Operands(vals, sub, scope).value, Operands(body, sub, [params] + scope).value;
      Read(Expand(Node(Node(Leaf(Sym("lambda")), Node(names, ListOf(body))), ListOf(vals)), sub), scope)
      == Some(Call(Lambda(params, Front(es), End(es)), vs))
  {
    ReadList(vals, sub, scope);
    ReadList(body, sub, [params] + scope);
    hide ListOf, Names;
    var es := Operands(body, sub, [params] + scope).value;
    var rest := Node(names, Expand(ListOf(body), sub));
    assert Expand(Node(names, ListOf(body)), sub) == rest;
    var head := Node(Leaf(Sym("lambda")), rest);
    assert Expand(Node(Leaf(Sym("lambda")), Node(names, ListOf(body))), sub) == head;
    assert Read(head, scope) == Some(Lambda(params, Front(es), End(es)));
    assert Read(Node(head, Expand(ListOf(vals), sub)), scope)
        == ReadCall(Read(head, scope), ReadAll(Expand(ListOf(vals), sub), scope));
  }

  /** The initial values are read outside the new variables, the body inside. */
  lemma ReadLet(ks: seq<Word>, keys: seq<Symbol>, vals: seq<Word>, body: seq<Word>, sub: nat -> Tree,
                scope: seq<seq<Symbol>>)
    requires |ks| == |keys| && (forall i :: 0 <= i < |ks| ==> ks[i] == Sym(keys[i])) && body != []
    requires !InScope(scope, "lambda") && Operands(vals, sub, scope).Some? && Operands(body, sub, [keys] + scope).Some?
    ensures var vs, es := Operands(vals, sub, scope).value, Operands(body, sub, [keys] + scope).value;
      Read(Expand(LetTree(ks, vals, body), sub), scope) == Some(LetForm(keys, vs, Front(es), End(es)))
  {
    ListNames(ks, keys, sub);
    ReadLambdaCall(ListOf(ks), keys, body, vals, sub, scope);
    hide ListOf, Read, Expand;
  }

  lemma ReadBegin(body: seq<Word>, sub: nat -> Tree, scope: seq<seq<Symbol>>)
    requires body != [] && !InScope(scope, "lambda") && Operands(body, sub, scope).Some?
    ensures var es := Operands(body, sub, scope).value;
      Read(Expand(BeginTree(body), sub), scope) == Some(BeginForm(Front(es), End(es)))
  {
    PlainFrame([], scope);
    OperandsSame(body, sub, scope, [[]] + scope);
    assert Operands([], sub, scope) == Some([]) && ListOf([]) == Leaf(Nil);
    ReadLambdaCall(Leaf(Nil), [], body, [], sub, scope);
    hide Read, Expand;
  }

  // --- what the rewritten lists come to

  /** `and`, relinked and read, has the value that its operands in turn give it. */
  lemma AndReads(g: Globals, ops: seq<Word>, sub: nat -> Tree, env: seq<Scheme.Frame>, fuel: nat)
    requires |ops| > 1 ==> Clear(And, ScopeOf(env))
    requires Operands(ops, sub, ScopeOf(env)).Some?
    ensures var es, e := Operands(ops, sub, ScopeOf(env)).value, Read(Expand(FormTree(And, ops), sub), ScopeOf(env));
      e.Some? && Eval(g, e.value, env, fuel) == AndMeaning(g, es, env, fuel)
  {
    ReadForm(And, ops, sub, ScopeOf(env));
    AndPreserved(g, Operands(ops, sub, ScopeOf(env)).value, env, fuel);
    hide Read, FormTree, Eval, AndMeaning, Expand;
  }

  /** So has `or`, if its later operands do not use `v`. */
  lemma OrReads(g: Globals, ops: seq<Word>, sub: nat -> Tree, env: seq<Scheme.Frame>, fuel: nat)
    requires |ops| > 1 ==> Clear(Or, ScopeOf(env))
    requires var es := Operands(ops, sub, ScopeOf(env)); es.Some? && (es.value != [] ==> V !in FreeAll(es.value[1..]))
    ensures var es, e := Operands(ops, sub, ScopeOf(env)).value, Read(Expand(FormTree(Or, ops), sub), ScopeOf(env));
      && e.Some?
      && (OrMeaning(g, es, env, fuel) != Timeout ==>
            OutcomeLike(OrMeaning(g, es, env, fuel), Eval(g, e.value, env, fuel + |es|)))
      && (Eval(g, e.value, env, fuel) != Timeout ==>
            OutcomeLike(OrMeaning(g, es, env, fuel), Eval(g, e.value, env, fuel)))
  {
    ReadForm(Or, ops, sub, ScopeOf(env));
    OrPreserved(g, Operands(ops, sub, ScopeOf(env)).value, env, fuel);
    hide Read, FormTree, Eval, OrMeaning, OutcomeLike, FreeAll, Expand;
  }

  /** `let`, relinked and read, has the value of its body with the variables bound to the initial values. */
  lemma LetReads(g: Globals, ks: seq<Word>, keys: seq<Symbol>, vals: seq<Word>, body: seq<Word>, sub: nat -> Tree,
                 env: seq<Scheme.Frame>, fuel: nat)
    requires |ks| == |keys| == |vals| && (forall i :: 0 <= i < |ks| ==> ks[i] == Sym(keys[i])) && body != []
    requires !InScope(ScopeOf(env), "lambda")
    requires Operands(vals, sub, ScopeOf(env)).Some? && Operands(body, sub, [keys] + ScopeOf(env)).Some?
    ensures var vs, es := Operands(vals, sub, ScopeOf(env)).value, Operands(body, sub, [keys] + ScopeOf(env)).value;
      var e, m := Read(Expand(LetTree(ks, vals, body), sub), ScopeOf(env)),
        LetMeaning(g, keys, vs, Front(es), End(es), env, fuel);
      && e.Some?
      && (m != Timeout ==> Eval(g, e.value, env, fuel + 1) == m)
      && (Eval(g, e.value, env, fuel) != Timeout ==> m == Eval(g, e.value, env, fuel))
  {
    ReadLet(ks, keys, vals, body, sub, ScopeOf(env));
    var vs, es := Operands(vals, sub, ScopeOf(env)).value, Operands(body, sub, [keys] + ScopeOf(env)).value;
    LetPreserved(g, keys, vs, Front(es), End(es), env, fuel);
    hide Read, Eval, LetMeaning, Expand, LetTree;
  }

  /** `begin`, relinked and read, has the value of its last expression. */
  lemma BeginReads(g: Globals, body: seq<Word>, sub: nat -> Tree, env: seq<Scheme.Frame>, fuel: nat)
    requires body != [] && !InScope(ScopeOf(env), "lambda") && Operands(body, sub, ScopeOf(env)).Some?
    ensures var es := Operands(body, sub, ScopeOf(env)).value;
      var e, m := Read(Expand(BeginTree(body), sub), ScopeOf(env)), BeginMeaning(g, Front(es), End(es), env, fuel);
      && e.Some? && OutcomeLike(m, Eval(g, e.value, env, fuel + 1))
      && (Eval(g, e.value, env, fuel) != Timeout ==> OutcomeLike(m, Eval(g, e.value, env, fuel)))
  {
    ReadBegin(body, sub, ScopeOf(env));
    var es := Operands(body, sub, ScopeOf(env)).value;
    BeginPreserved(g, Front(es), End(es), env, fuel);
    hide Read, Eval, BeginMeaning, OutcomeLike, Expand, BeginTree;
  }

  // --- where a keyword is a variable

  lemma Shadowed(k: Symbol, rest: Tree, scope: seq<seq<Symbol>>)
    requires InScope(scope, k) && (k == "if" || k == "lambda")
    ensures Read(Node(Leaf(Sym(k)), rest), scope) == ReadCall(Some(Var(k)), ReadAll(rest, scope))
  {
  }

  /** With two or more operands, `and` reads as its core form exactly where `if` is not a variable. */
  lemma AndExact(ops: seq<Word>, sub: nat -> Tree, scope: seq<seq<Symbol>>)
    requires |ops| > 1 && Operands(ops, sub, scope).Some?
    ensures Read(Expand(FormTree(And, ops), sub), scope) == Some(AndForm(Operands(ops, sub, scope).value)) <==>
      Clear(And, scope)
  {
    if Clear(And, scope) {
      ReadForm(And, ops, sub, scope);
    } else {
      ReadAnd(ops[0], FormTree(And, ops[1..]), sub, scope);
      hide Read;
    }
  }

  lemma OrExact(ops: seq<Word>, sub: nat -> Tree, scope: seq<seq<Symbol>>)
    requires |ops| > 1 && Operands(ops, sub, scope).Some?
    ensures Read(Expand(FormTree(Or, ops), sub), scope) == Some(OrForm(Operands(ops, sub, scope).value)) <==>
      Clear(Or, scope)
  {
    if Clear(Or, scope) {
      ReadForm(Or, ops, sub, scope);
    } else {
      var inner := FormTree(Or, ops[1..]);
      var test := TestTree(Node(inner, Leaf(Nil)));
      ReadApplied(test, ops[0], sub, scope);
      ExpandTest(inner, sub);
      TestShadowed(Expand(inner, sub), scope);
      hide Read, Expand, TestTree;
    }
  }

  lemma TestShadowed(inner: Tree, scope: seq<seq<Symbol>>)
    requires !Clear(Or, scope)
    ensures var f := Read(TestTree(Node(inner, Leaf(Nil))), scope); f.Some? && f.value.Lambda? ==> !f.value.last.If?
  {
    hide Read;
    if InScope(scope, "lambda") {
      Shadowed("lambda", TestTree(Node(inner, Leaf(Nil))).rest, scope);
    } else {
      ReadProcedure(ChoiceTree(inner), scope);
      InnerScope([V], scope, "if");
      Shadowed("if", ChoiceTree(inner).rest, [[V]] + scope);
      hide InScope;
    }
  }

  /** `let` reads as its core form exactly where `lambda` is not a variable. */
  lemma LetExact(ks: seq<Word>, keys: seq<Symbol>, vals: seq<Word>, body: seq<Word>, sub: nat -> Tree,
                 scope: seq<seq<Symbol>>)
    requires |ks| == |keys| && (forall i :: 0 <= i < |ks| ==> ks[i] == Sym(keys[i])) && body != []
    requires Operands(vals, sub, scope).Some? && Operands(body, sub, [keys] + scope).Some?
    ensures var vs, es := Operands(vals, sub, scope).value, Operands(body, sub, [keys] + scope).value;
      Read(Expand(LetTree(ks, vals, body), sub), scope) == Some(LetForm(keys, vs, Front(es), End(es)))
      <==> !InScope(scope, "lambda")
  {
    if !InScope(scope, "lambda") {
      ReadLet(ks, keys, vals, body, sub, scope);
    } else {
      CallShadowed(ListOf(ks), ListOf(body), ListOf(vals), sub, scope);
      hide Read, Expand;
    }
  }

  lemma BeginExact(body: seq<Word>, sub: nat -> Tree, scope: seq<seq<Symbol>>)
    requires body != [] && Operands(body, sub, scope).Some?
    ensures var es := Operands(body, sub, scope).value;
      Read(Expand(BeginTree(body), sub), scope) == Some(BeginForm(Front(es), End(es))) <==> !InScope(scope, "lambda")
  {
    if !InScope(scope, "lambda") {
      ReadBegin(body, sub, scope);
    } else {
      CallShadowed(Leaf(Nil), ListOf(body), Leaf(Nil), sub, scope);
      hide Read, Expand;
    }
  }

  lemma CallShadowed(names: Tree, body: Tree, vals: Tree, sub: nat -> Tree, scope: seq<seq<Symbol>>)
    requires InScope(scope, "lambda")
    ensures var e := Read(Expand(Node(Node(Leaf(Sym("lambda")), Node(names, body)), vals), sub), scope);
      e.Some? ==> e.value.Call? && !e.value.f.Lambda?
  {
    var head := Node(Leaf(Sym("lambda")), Node(Expand(names, sub), Expand(body, sub)));
    assert Expand(Node(names, body), sub) == Node(Expand(names, sub), Expand(body, sub));
    assert Expand(Node(Leaf(Sym("lambda")), Node(names, body)), sub) == head;
    Shadowed("lambda", head.rest, scope);
    assert Read(Node(head, Expand(vals, sub)), scope) == ReadCall(Read(head, scope), ReadAll(Expand(vals, sub), scope));
  }

  /** `((lambda (if) (and 1 2)) cons)` fails, though the value of `(and 1 2)` is 2. */
  lemma AndCaptures(g: Globals, sub: nat -> Tree, fuel: nat)
    ensures var env, ops := [Bind(["if"], [PrimV(Cons)])], [Number(1), Number(2)];
      var es, e := Operands(ops, sub, ScopeOf(env)), Read(Expand(FormTree(And, ops), sub), ScopeOf(env));
      && es.Some? && AndMeaning(g, es.value, env, fuel) == Val(IntV(2))
      && e.Some? && Eval(g, e.value, env, fuel) == Err
  {
    var env, ops := [Bind(["if"], [PrimV(Cons)])], [Number(1), Number(2)];
    var scope := ScopeOf(env);
    assert "if" in scope[0];
    assert ops[1..] == [Number(2)] && [Number(2)][1..] == [];
    assert Operands([Number(2)], sub, scope) == Some([Num(2)] + []);
    assert Operands(ops, sub, scope) == Some([Num(1)] + ([Num(2)] + []));
    var es := [Num(1), Num(2)];
    assert [Num(1)] + ([Num(2)] + []) == es && es[1..] == [Num(2)];
    assert FormTree(And, ops[1..]) == Leaf(Number(2));
    ReadAnd(Number(1), Leaf(Number(2)), sub, scope);
    var args := [Num(1), Num(2), Flag(false)];
    assert [Num(1)] + ([Num(2)] + [Flag(false)]) == args;
    FailsOnThree(g, env, fuel);
  }

  lemma FailsOnThree(g: Globals, env: seq<Scheme.Frame>, fuel: nat)
    requires env == [Bind(["if"], [PrimV(Cons)])]
    ensures Eval(g, Call(Var("if"), [Num(1), Num(2), Flag(false)]), env, fuel) == Err
  {
    assert "if" in ScopeOf(env)[0];
    assert Eval(g, Var("if"), env, fuel) == Val(PrimV(Cons));
    var args := [Num(1), Num(2), Flag(false)];
    assert args[1..] == [Num(2), Flag(false)] && [Num(2), Flag(false)][1..] == [Flag(false)];
    assert EvalArgs(g, [Flag(false)], env, fuel).Vals?;
    assert EvalArgs(g, [Num(2), Flag(false)], env, fuel).Vals?;
    assert EvalArgs(g, args, env, fuel).Vals?;
  }

  // --- the cells themselves

  /** What a word reads as: the structure of cells behind it is complete, and is the expression. */
  ghost predicate ReadsAs(cells: Cells, w: Word, scope: seq<seq<Symbol>>, e: Expr) {
    exists t :: Complete(cells, w, t) && Read(t, scope) == Some(e)
  }

  ghost predicate Complete(cells: Cells, w: Word, t: Tree) {
    Ends(t) == {} && Shows(cells, w, t)
  }

  lemma ReadsOnce(cells: Cells, w: Word, scope: seq<seq<Symbol>>, d: Expr, e: Expr)
    requires ReadsAs(cells, w, scope, d) && ReadsAs(cells, w, scope, e)
    ensures d == e
  {
    var t :| Complete(cells, w, t) && Read(t, scope) == Some(d);
    var u :| Complete(cells, w, u) && Read(u, scope) == Some(e);
    ShowsOnce(cells, w, t, u);
  }

  /** The operands are complete, in cells other than the form's own. */
  ghost predicate InPlace(cells: Cells, ops: seq<Word>, sub: nat -> Tree, own: set<nat>) {
    forall c :: Ref(c) in ops ==> Complete(cells, Ref(c), sub(c)) && Elsewhere(cells, Ref(c), sub(c), own)
  }

  lemma {:induction false} ExpandEnds(t: Tree, sub: nat -> Tree)
    requires forall c :: c in Ends(t) ==> Ends(sub(c)) == {}
    ensures Ends(Expand(t, sub)) == {}
  {
    if t.Node? {
      ExpandEnds(t.first, sub);
      ExpandEnds(t.rest, sub);
    }
  }

  lemma {:induction false} FormEnds(form: Form, ops: seq<Word>)
    ensures forall c :: c in Ends(FormTree(form, ops)) ==> Ref(c) in ops
  {
    if |ops| > 1 {
      FormEnds(form, ops[1..]);
      StepEnds(form, ops[0], FormTree(form, ops[1..]));
      hide StepTree;
    }
  }

  lemma StepEnds(form: Form, op: Word, inner: Tree)
    ensures forall c :: c in Ends(StepTree(form, op, inner)) ==> Ref(c) == op || c in Ends(inner)
  {
    if form.And? {
      var no := Node(Leaf(Truth(false)), Leaf(Nil));
      assert Ends(no) == {};
      assert Ends(Node(inner, no)) == Ends(inner);
      assert Ends(Node(Leaf(op), Node(inner, no))) == Ends(Leaf(op)) + Ends(inner);
    } else {
      var tail := Node(inner, Leaf(Nil));
      assert Ends(tail) == Ends(inner);
      var three := Node(Leaf(Sym("v")), Node(Leaf(Sym("v")), tail));
      assert Ends(three) == Ends(inner);
      var choice := Node(Leaf(Sym("if")), three);
      assert Ends(choice) == Ends(inner);
      var vars, body := Node(Leaf(Sym("v")), Leaf(Nil)), Node(choice, Leaf(Nil));
      assert Ends(vars) == {} && Ends(body) == Ends(inner);
      assert Ends(Node(vars, body)) == Ends(inner);
      assert Ends(TestTree(tail)) == Ends(inner);
      assert Ends(Node(Leaf(op), Leaf(Nil))) == Ends(Leaf(op));
    }
  }

  lemma {:induction false} ListEnds(ws: seq<Word>)
    ensures forall c :: c in Ends(ListOf(ws)) ==> Ref(c) in ws
  {
    if ws != [] {
      ListEnds(ws[1..]);
    }
  }

  /** A rewritten list with its operands in place reads as the expression its structure reads as. */
  lemma Rebuilt(before: Cells, after: Cells, w: Word, t: Tree, ops: seq<Word>, sub: nat -> Tree, own: set<nat>,
                scope: seq<seq<Symbol>>, e: Expr)
    requires Shows(after, w, t) && Untouched(before, after, own) && InPlace(before, ops, sub, own)
    requires (forall c :: c in Ends(t) ==> Ref(c) in ops) && Read(Expand(t, sub), scope) == Some(e)
    ensures ReadsAs(after, w, scope, e)
  {
    hide Read, Expand, Shows, Elsewhere, Untouched, Ends;
    Relinked(before, after, w, t, sub, own);
    ExpandEnds(t, sub);
    assert Complete(after, w, Expand(t, sub));
  }

  /** Rewrites `(and e ...)` or `(or e ...)`: the cells then read as the core form of the operands. */
  method RewriteForm(r: Reader, form: Form, list: nat, len: nat, ghost ids: seq<nat>, ghost ops: seq<Word>,
                     ghost sub: nat -> Tree, ghost scope: seq<seq<Symbol>>)
    returns (w: Word)
    requires Spine(r.cells, Ref(list), [list] + ids, [Keyword(form)] + ops) && len == |ops| + 1
    requires InPlace(r.cells, ops, sub, {list} + IdSet(ids)) && Operands(ops, sub, scope).Some?
    requires |ops| > 1 ==> Clear(form, scope)
    modifies r
    ensures ReadsAs(r.cells, w, scope, CoreForm(form, Operands(ops, sub, scope).value))
  {
    hide Spine, InPlace, Operands, Read, Expand, FormTree, Shows, Untouched;
    ghost var before := r.cells;
    w := r.Rewrite(form, list, len, ids, ops);
    ReadForm(form, ops, sub, scope);
    FormEnds(form, ops);
    Rebuilt(before, r.cells, w, FormTree(form, ops), ops, sub, {list} + IdSet(ids), scope,
            CoreForm(form, Operands(ops, sub, scope).value));
  }

  /** Rewrites `(begin e ...)`. */
  method RewriteBegin(r: Reader, list: nat, len: nat, ghost ids: seq<nat>, ghost body: seq<Word>,
                      ghost sub: nat -> Tree, ghost scope: seq<seq<Symbol>>)
    returns (w: Word, ok: bool)
    requires Spine(r.cells, Ref(list), [list] + ids, [Sym("begin")] + body) && len == |body| + 1
    requires InPlace(r.cells, body, sub, {list}) && Operands(body, sub, scope).Some? && !InScope(scope, "lambda")
    modifies r
    ensures ok == (body != [])
    ensures ok ==> var es := Operands(body, sub, scope).value; ReadsAs(r.cells, w, scope, BeginForm(Front(es), End(es)))
  {
    hide Spine, InPlace, Operands, Read, Expand, Shows, Untouched, BeginForm;
    ghost var before := r.cells;
    w, ok := r.RewriteBegin(list, len, ids, body);
    if ok {
      ReadBegin(body, sub, scope);
      ghost var es := Operands(body, sub, scope).value;
      ListEnds(body);
      assert forall c :: c in Ends(BeginTree(body)) ==> Ref(c) in body by { BeginEnds(body); }
      hide BeginTree;
      Rebuilt(before, r.cells, w, BeginTree(body), body, sub, {list}, scope, BeginForm(Front(es), End(es)));
    }
  }

  lemma BeginEnds(body: seq<Word>)
    ensures forall c :: c in Ends(BeginTree(body)) ==> Ref(c) in body
  {
    ListEnds(body);
    assert Ends(Node(Leaf(Nil), ListOf(body))) == Ends(ListOf(body));
    assert Ends(Node(Leaf(Sym("lambda")), Node(Leaf(Nil), ListOf(body)))) == Ends(ListOf(body));
    hide ListOf;
  }

  lemma LetEnds(ks: seq<Word>, vals: seq<Word>, body: seq<Word>)
    requires forall k :: k in ks ==> k.Sym?
    ensures forall c :: c in Ends(LetTree(ks, vals, body)) ==> Ref(c) in vals + body
  {
    ListEnds(ks);
    ListEnds(vals);
    ListEnds(body);
    assert Ends(ListOf(ks)) == {};
    assert Ends(Node(ListOf(ks), ListOf(body))) == Ends(ListOf(body));
    assert Ends(Node(Leaf(Sym("lambda")), Node(ListOf(ks), ListOf(body)))) == Ends(ListOf(body));
    hide ListOf;
  }

  /** Rewrites `(let ((key value) ...) e ...)`. */
  method RewriteLet(r: Reader, list: nat, len: nat, ghost ids: seq<nat>, ghost items: seq<Word>, ghost vids: seq<nat>,
                    ghost qs: seq<nat>, ghost rs: seq<nat>, ghost ks: seq<Word>, ghost keys: seq<Symbol>,
                    ghost vals: seq<Word>, ghost sub: nat -> Tree, ghost scope: seq<seq<Symbol>>)
    returns (w: Word, ok: bool)
    requires Spine(r.cells, Ref(list), [list] + ids, [Sym("let")] + items) && len == |items| + 1
    requires |items| > 1 ==> Bindings(r.cells, qs, rs, ks, vals) && Spine(r.cells, items[0], vids, Refs(qs))
    requires forall c :: c in vids + [list] + ids ==> c !in qs && c !in rs
    requires |items| > 1 ==> |ks| == |keys| && forall i :: 0 <= i < |ks| ==> ks[i] == Sym(keys[i])
    requires |items| > 1 ==> InPlace(r.cells, vals + items[1..], sub, {list} + IdSet(ids) + IdSet(qs) + IdSet(rs))
    requires |items| > 1 ==> Operands(vals, sub, scope).Some? && Operands(items[1..], sub, [keys] + scope).Some?
    requires !InScope(scope, "lambda")
    modifies r
    ensures ok == (|items| > 1 && qs != [])
    ensures ok ==> var vs, es := Operands(vals, sub, scope).value, Operands(items[1..], sub, [keys] + scope).value;
      ReadsAs(r.cells, w, scope, LetForm(keys, vs, Front(es), End(es)))
  {
    hide Spine, Bindings, InPlace, Operands, Read, Expand, Shows, Untouched, LetForm, LetTree;
    ghost var before := r.cells;
    w, ok := r.RewriteLet(list, len, ids, items, vids, qs, rs, ks, vals);
    if ok {
      ghost var body := items[1..];
      ReadLet(ks, keys, vals, body, sub, scope);
      ghost var vs, es := Operands(vals, sub, scope).value, Operands(body, sub, [keys] + scope).value;
      LetEnds(ks, vals, body);
      Rebuilt(before, r.cells, w, LetTree(ks, vals, body), vals + body, sub,
        {list} + IdSet(ids) + IdSet(qs) + IdSet(rs), scope,
              LetForm(keys, vs, Front(es), End(es)));
    }
  }
}
