/** What the compiler emits, as functions of the expression and of what is known when it
    is compiled. */
module SchemeCode {
  import opened Scheme
  import opened SchemeMachine

  /** The words of an expression, and the two lists that grow while a lambda is compiled:
      the outer variables it uses, and its own argument slots that inner lambdas capture. */
  datatype Gen = Gen(words: seq<Word>, requests: seq<Symbol>, indirect: seq<nat>)

  datatype Item = Item(word: Word, requests: seq<Symbol>)

  function AddNew<T(==)>(xs: seq<T>, x: T): seq<T> {
    if x in xs then xs else xs + [x]
  }

  function Position(xs: seq<Symbol>, x: Symbol): (i: nat)
    requires x in AddNew(xs, x)
    ensures i < |AddNew(xs, x)| && AddNew(xs, x)[i] == x
  {
    IndexOf(AddNew(xs, x), x)
  }

  lemma AddNewHas<T>(xs: seq<T>, x: T)
    ensures x in AddNew(xs, x) && xs <= AddNew(xs, x)
    ensures forall y :: y in AddNew(xs, x) <==> y in xs || y == x
  {
    if x !in xs {
      assert AddNew(xs, x)[|xs|] == x;
    }
  }

  /** How a symbol is addressed: a slot of the own frame (depth words down), a slot of the
      closure's environment, a library procedure, or a global. */
  function ItemOf(g: Globals, scope: seq<seq<Symbol>>, depth: nat, requests: seq<Symbol>, x: Symbol): Item {
    if InScope(scope, x) then
      if x in scope[0] then Item(Rel(Ref(depth + 2 + IndexOf(scope[0], x), false)), requests)
      else
        AddNewHas(requests, x);
        Item(Rel(Ref(Position(requests, x), true)), AddNew(requests, x))
    else if x in g.modules then Item(Lit(PrimC(g.modules[x])), requests)
    else Item(Global(x), requests)
  }

  function LoadOp(w: Word): Opcode {
    match w
    case Rel(_) => LOAD_RELATIVE
    case Global(_) => CDR
    case _ => LOAD
  }

  function InjectCell(d: Datum): Cell {
    match d
    case IntD(i) => IntC(i)
    case BoolD(b) => BoolC(b)
    case NilD => NilC
    case SymD(s) => SymC(s)
    case PairD(a, b) => PairC(InjectCell(a), InjectCell(b))
  }

  /** An arithmetic procedure, not shadowed, applied to an operand and an integer literal. */
  predicate IsImmediate(g: Globals, e: Expr, scope: seq<seq<Symbol>>) {
    && e.Call? && e.f.Var? && !InScope(scope, e.f.x)
    && e.f.x in g.modules && g.modules[e.f.x].Arith?
    && |e.args| == 2 && e.args[1].Num?
  }

  function ImmediateOp(op: ArithOp): Opcode {
    match op
    case Add => ADDI
    case Sub => SUBI
    case Mul => MULI
    case Div => DIVI
  }

  function Compile(g: Globals, e: Expr, scope: seq<seq<Symbol>>, depth: nat, requests: seq<Symbol>, indirect: seq<nat>,
                   tail: bool): Gen
    decreases e, 1
  {
    match e
    case Num(i) => Gen([Op(LOAD), Lit(IntC(i))], requests, indirect)
    case Flag(b) => Gen([Op(LOAD), Lit(BoolC(b))], requests, indirect)
    case Quote(d) => Gen([Op(LOAD), Lit(InjectCell(d))], requests, indirect)
    case Var(x) =>
      var it := ItemOf(g, scope, depth, requests, x);
      Gen([Op(LoadOp(it.word)), it.word], it.requests, indirect)
    case If(test, yes, no) =>
      var t := Compile(g, test, scope, depth, requests, indirect, false);
      var y := Compile(g, yes, scope, depth, t.requests, t.indirect, tail);
      var n := Compile(g, no, scope, depth, y.requests, y.indirect, tail);
      Gen(t.words + [Op(BF), Long(|y.words| + 4)] + y.words + [Op(BRA), Long(|n.words| + 2)] + n.words,
          n.requests, n.indirect)
    case Lambda(params, init, last) =>
      var i := CompileInit(g, init, [params] + scope, [], []);
      var b := Compile(g, last, [params] + scope, 0, i.requests, i.indirect, true);
      var code := Code(params, b.indirect, i.words + b.words + [Op(RET)]);
      if b.requests == [] then Gen([Op(LOAD), Lit(CodeC(code))], requests, indirect)
      else
        var c := ClosureRefs(g, b.requests, scope, depth, requests, indirect);
        Gen([Op(CREATE_LAMBDA), Template(code, c.refs)], c.requests, c.indirect)
    case Call(f, args) =>
      var c := Compile(g, f, scope, depth, requests, indirect, false);
      if IsImmediate(g, e, scope) then
        var a := Compile(g, args[0], scope, depth, c.requests, c.indirect, false);
        Gen(c.words + a.words + [Op(ImmediateOp(g.modules[f.x].op)), Long(args[1].i)], a.requests, a.indirect)
      else
        var a := CompileArgs(g, args, 0, scope, depth + FrameSize(|args|), c.requests, c.indirect);
        Gen(c.words + [Op(CREATE_FRAME), Long(|args|)] + a.words + [Op(if tail then TAIL else CALL)],
            a.requests, a.indirect)
  }

  /** Arguments, each stored into the next slot of the frame under construction. */
  function CompileArgs(g: Globals, args: seq<Expr>, done: nat, scope: seq<seq<Symbol>>, depth: nat,
                       requests: seq<Symbol>, indirect: seq<nat>): Gen
    decreases args, 0
  {
    if args == [] then Gen([], requests, indirect)
    else
      var a := Compile(g, args[0], scope, depth, requests, indirect, false);
      var rest := CompileArgs(g, args[1..], done + 1, scope, depth, a.requests, a.indirect);
      Gen(a.words + [Op(STORE), Long(2 + done)] + rest.words, rest.requests, rest.indirect)
  }

  /** The expressions of a body before the last: none is in tail position. */
  function CompileInit(g: Globals, init: seq<Expr>, scope: seq<seq<Symbol>>, requests: seq<Symbol>,
                       indirect: seq<nat>): Gen
    decreases init, 0
  {
    if init == [] then Gen([], requests, indirect)
    else
      var a := Compile(g, init[0], scope, 0, requests, indirect, false);
      var rest := CompileInit(g, init[1..], scope, a.requests, a.indirect);
      Gen(a.words + rest.words, rest.requests, rest.indirect)
  }

  datatype Refs = Refs(refs: seq<Ref>, requests: seq<Symbol>, indirect: seq<nat>)

  /** Where the creator of a closure finds each captured variable. */
  function ClosureRefs(g: Globals, wanted: seq<Symbol>, scope: seq<seq<Symbol>>, depth: nat, requests: seq<Symbol>,
                       indirect: seq<nat>): (r: Refs)
    ensures |r.refs| == |wanted|
    decreases |wanted|
  {
    if wanted == [] then Refs([], requests, indirect)
    else
      var it := ItemOf(g, scope, depth, requests, wanted[0]);
      var ref := if it.word.Rel? then it.word.r else Ref(0, false);
      var boxed := if it.word.Rel? && !ref.inEnv then AddNew(indirect, ref.offset - depth) else indirect;
      var rest := ClosureRefs(g, wanted[1..], scope, depth, it.requests, boxed);
      Refs([ref] + rest.refs, rest.requests, rest.indirect)
  }

  /** The compiled form of a lambda and the variables its closure must carry. */
  function CompileLambda(g: Globals, params: seq<Symbol>, init: seq<Expr>, last: Expr,
                         scope: seq<seq<Symbol>>): (Code, seq<Symbol>) {
    var i := CompileInit(g, init, [params] + scope, [], []);
    var b := Compile(g, last, [params] + scope, 0, i.requests, i.indirect, true);
    (Code(params, b.indirect, i.words + b.words + [Op(RET)]), b.requests)
  }

  /** A whole program, compiled at top level. */
  function Program(g: Globals, e: Expr): Code {
    var r := Compile(g, e, [], 0, [], [], false);
    Code([], r.indirect, r.words + [Op(RET)])
  }

  /** The compiler rejects a literal in the position of a procedure. */
  predicate Accepted(e: Expr)
    decreases e
  {
    match e
    case If(t, y, n) => Accepted(t) && Accepted(y) && Accepted(n)
    case Lambda(_, init, last) => (forall i :: 0 <= i < |init| ==> Accepted(init[i])) && Accepted(last)
    case Call(f, args) =>
      && !f.Num? && !f.Flag? && !f.Quote?
      && Accepted(f) && forall i :: 0 <= i < |args| ==> Accepted(args[i])
    case _ => true
  }
}
