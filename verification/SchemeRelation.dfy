/** Compiled code run by the machine computes what the evaluator says. */
module SchemeRelation {
  import opened Lists
  import opened Wrappers
  import opened Scheme
  import opened SchemeMachine
  import opened SchemeCode
  import opened SchemeLists

  /** The machine's form of a value.  A closure carries only what its code asks for, each
      captured variable in a box. */
  function Form(g: Globals, v: Value): (c: Cell)
    ensures !c.Box?
    ensures v.IntV? <==> c.IntC?
    ensures v.IntV? ==> v.i == c.i
    ensures v.PairV? <==> c.PairC?
    ensures v.PairV? ==> c.first == Form(g, v.first) && c.rest == Form(g, v.rest)
    ensures v == BoolV(false) <==> c == BoolC(false)
    decreases v
  {
    match v
    case IntV(i) => IntC(i)
    case BoolV(b) => BoolC(b)
    case NilV => NilC
    case SymV(s) => SymC(s)
    case PairV(a, b) => PairC(Form(g, a), Form(g, b))
    case PrimV(p) => PrimC(p)
    case Closure(params, init, last, env) =>
      LambdaRequests(g, params, init, last, ScopeOf(env));
      var (code, wanted) := CompileLambda(g, params, init, last, ScopeOf(env));
      if wanted == [] then CodeC(code)
      else
        LambdaC(code, seq(|wanted|, j requires 0 <= j < |wanted| =>
          assert InScope(ScopeOf(env), wanted[j]);
          var k := Binder(ScopeOf(env), wanted[j]);
          Box(Form(g, env[k].bindings[IndexOf(env[k].Names(), wanted[j])].val))))
  }

  function Forms(g: Globals, vs: seq<Value>): (cs: seq<Cell>)
    ensures |cs| == |vs| && forall i :: 0 <= i < |vs| ==> cs[i] == Form(g, vs[i])
  {
    seq(|vs|, i requires 0 <= i < |vs| => Form(g, vs[i]))
  }

  function DefsOf(g: Globals): (m: map<Symbol, Cell>)
    ensures m.Keys == g.defs.Keys && forall x :: x in m ==> m[x] == Form(g, g.defs[x])
  {
    map x | x in g.defs :: Form(g, g.defs[x])
  }

  function Slot(c: Cell, boxed: bool): Cell {
    if boxed then Box(c) else c
  }

  /** The frame of the running lambda lies on top of the stack. */
  predicate OwnFrame(g: Globals, stack: seq<Cell>, f: Frame, boxed: seq<nat>) {
    && |stack| >= FrameSize(|f.bindings|)
    && stack[1] == IntC(|f.bindings|)
    && forall k :: 2 <= k < FrameSize(|f.bindings|) ==>
         stack[k] == Slot(Form(g, f.bindings[k - 2].val), k in boxed)
  }

  /** The environment register holds a box for every variable asked for. */
  predicate Carried(g: Globals, ep: seq<Cell>, env: seq<Frame>, wanted: seq<Symbol>) {
    && |ep| >= |wanted|
    && forall j :: 0 <= j < |wanted| ==>
         InScope(ScopeOf(env), wanted[j]) && ep[j] == Box(Form(g, Lookup(env, wanted[j])))
  }

  predicate Situated(g: Globals, m: Machine, env: seq<Frame>, depth: nat, wanted: seq<Symbol>, boxed: seq<nat>) {
    && m.Running? && |m.stack| >= depth
    && (env != [] ==> OwnFrame(g, m.stack[depth..], env[0], boxed) && Carried(g, m.ep, env[1..], wanted))
  }

  /** The lists of a piece of code are contained in those of the whole lambda. */
  predicate Covered(r: Gen, wanted: seq<Symbol>, boxed: seq<nat>) {
    r.requests <= wanted && forall k :: k in r.indirect ==> k in boxed
  }

  predicate CodeAt(m: Machine, words: seq<Word>) {
    m.Running? && m.ip + |words| <= |m.code.words| && m.code.words[m.ip..m.ip + |words|] == words
  }

  /** A run that must end in target, with the value in d1, or throw where the evaluator errs.
      Where the evaluator runs out of fuel the machine is still running, late in the run. */
  predicate Agrees(g: Globals, o: Outcome, late: bool, m: Machine, target: Machine)
    requires target.Running?
  {
    match o
    case Val(v) => m == target.(d1 := Form(g, v))
    case Err => m == Thrown
    case Timeout => m.Running? && late
  }

  lemma FormOfClosure(g: Globals, params: seq<Symbol>, init: seq<Expr>, last: Expr, env: seq<Frame>)
    ensures var (code, wanted) := CompileLambda(g, params, init, last, ScopeOf(env));
            var c := Form(g, Closure(params, init, last, env));
            if wanted == [] then c == CodeC(code)
            else c.LambdaC? && c.code == code && |c.env| == |wanted|
                 && forall j :: 0 <= j < |wanted| ==>
                      InScope(ScopeOf(env), wanted[j]) && c.env[j] == Box(Form(g, Lookup(env, wanted[j])))
  {
    LambdaRequests(g, params, init, last, ScopeOf(env));
  }

  lemma {:induction false} FormOfDatum(g: Globals, d: Datum)
    ensures Form(g, Inject(d)) == InjectCell(d)
  {
    match d
    case PairD(a, b) =>
      FormOfDatum(g, a);
      FormOfDatum(g, b);
    case _ =>
  }

  lemma FormsOfInts(g: Globals, vs: seq<Value>)
    ensures AllIntCells(Forms(g, vs)) <==> AllInts(vs)
    ensures AllInts(vs) ==> IntCells(Forms(g, vs)) == Ints(vs)
  {
    if AllIntCells(Forms(g, vs)) {
      forall i | 0 <= i < |vs| ensures vs[i].IntV? {
        assert Forms(g, vs)[i].IntC?;
      }
    }
  }

  /** Library procedures do the same on cells as on values. */
  lemma PrimAgrees(g: Globals, p: Prim, vs: seq<Value>)
    ensures match ApplyPrim(p, vs) {
              case Val(v) => CallPrim(p, Forms(g, vs)) == Some(Form(g, v))
              case Err => CallPrim(p, Forms(g, vs)) == None
              case Timeout => false
            }
  {
    match p
    case Arith(op) => FormsOfInts(g, vs);
    case _ =>
  }

  lemma {:induction false} ToIndirectAt(stack: seq<Cell>, offsets: seq<nat>, k: nat)
    requires forall i :: 0 <= i < |offsets| ==> offsets[i] < |stack|
    requires NoDup(offsets) && k < |stack|
    ensures ToIndirect(stack, offsets)[k] == Slot(stack[k], k in offsets)
    decreases |offsets|
  {
    if offsets != [] {
      var o := offsets[0];
      var stack' := stack[o := Box(stack[o])];
      ToIndirectAt(stack', offsets[1..], k);
      assert k in offsets <==> k == o || k in offsets[1..];
      assert o !in offsets[1..];
    }
  }

  lemma CodeSplit(m: Machine, a: seq<Word>, b: seq<Word>)
    requires CodeAt(m, a + b)
    ensures CodeAt(m, a) && CodeAt(m.(ip := m.ip + |a|), b)
  {
    assert (a + b)[..|a|] == a && (a + b)[|a|..] == b;
  }

  lemma OperandStep(defs: map<Symbol, Cell>, m: Machine, op: Opcode, w: Word)
    requires CodeAt(m, [Op(op), w]) && !op.CALL? && !op.TAIL? && !op.RET?
    ensures Step(defs, m) == StepOperand(defs, m, op, w)
    ensures Steps(defs, m, 1) == StepOperand(defs, m, op, w)
  {
    assert m.code.words[m.ip] == [Op(op), w][0];
    assert m.code.words[m.ip + 1] == [Op(op), w][1];
    assert Steps(defs, Step(defs, m), 0) == Step(defs, m);
  }

  lemma SingleStep(defs: map<Symbol, Cell>, m: Machine, op: Opcode)
    requires CodeAt(m, [Op(op)]) && (op.CALL? || op.TAIL? || op.RET?)
    ensures Steps(defs, m, 1) == if op.CALL? then StepCall(m) else if op.TAIL? then StepTail(m) else StepRet(m)
  {
    assert m.code.words[m.ip] == [Op(op)][0];
    assert Steps(defs, Step(defs, m), 0) == Step(defs, m);
  }

  lemma {:induction false} ThrownStays(defs: map<Symbol, Cell>, n: nat)
    ensures Steps(defs, Thrown, n) == Thrown
  {
    if n > 0 { ThrownStays(defs, n - 1); }
  }
}
