/** The core of the Scheme dialect and its meaning, given by a direct evaluator. */
module Scheme {
  import opened Wrappers

  type Symbol = string

  datatype ArithOp = Add | Sub | Mul | Div

  datatype Prim = Cons | Car | Cdr | IsPair | Arith(op: ArithOp)

  datatype Datum =
    | IntD(i: int)
    | BoolD(b: bool)
    | NilD
    | SymD(name: Symbol)
    | PairD(first: Datum, rest: Datum)

  /** Fixed-arity core forms.  The body of a lambda is some expressions run for nothing
      but their effects, and a last one that gives its value. */
  datatype Expr =
    | Num(i: int)
    | Flag(b: bool)
    | Quote(d: Datum)
    | Var(x: Symbol)
    | If(test: Expr, yes: Expr, no: Expr)
    | Lambda(params: seq<Symbol>, init: seq<Expr>, last: Expr)
    | Call(f: Expr, args: seq<Expr>)

  datatype Value =
    | IntV(i: int)
    | BoolV(b: bool)
    | NilV
    | SymV(name: Symbol)
    | PairV(first: Value, rest: Value)
    | PrimV(p: Prim)
    | Closure(params: seq<Symbol>, init: seq<Expr>, last: Expr, env: seq<Frame>)

  datatype Binding = Binding(name: Symbol, val: Value)

  /** The variables of one lambda and their values. */
  datatype Frame = Frame(bindings: seq<Binding>) {
    function Names(): (xs: seq<Symbol>)
      ensures |xs| == |bindings| && forall i :: 0 <= i < |xs| ==> xs[i] == bindings[i].name
    {
      seq(|bindings|, i requires 0 <= i < |bindings| => bindings[i].name)
    }
  }

  function Bind(xs: seq<Symbol>, vs: seq<Value>): (f: Frame)
    requires |xs| == |vs|
    ensures f.Names() == xs
    ensures |f.bindings| == |vs| && forall i :: 0 <= i < |vs| ==> f.bindings[i].val == vs[i]
  {
    Frame(seq(|xs|, i requires 0 <= i < |xs| => Binding(xs[i], vs[i])))
  }

  /** The module table (library procedures) and the table of global definitions. */
  datatype Globals = Globals(modules: map<Symbol, Prim>, defs: map<Symbol, Value>)

  datatype Outcome = Val(v: Value) | Err | Timeout

  datatype Outcomes = Vals(vs: seq<Value>) | ErrS | TimeoutS

  function IndexOf(vars: seq<Symbol>, x: Symbol): (i: nat)
    requires x in vars
    ensures i < |vars| && vars[i] == x
  {
    if vars[0] == x then 0 else 1 + IndexOf(vars[1..], x)
  }

  /** The variables in scope, innermost lambda first. */
  function ScopeOf(env: seq<Frame>): (s: seq<seq<Symbol>>)
    ensures |s| == |env| && forall k :: 0 <= k < |env| ==> s[k] == env[k].Names()
  {
    seq(|env|, k requires 0 <= k < |env| => env[k].Names())
  }

  predicate InScope(scope: seq<seq<Symbol>>, x: Symbol) {
    exists k :: 0 <= k < |scope| && x in scope[k]
  }

  /** The innermost frame that binds x. */
  function Binder(scope: seq<seq<Symbol>>, x: Symbol): (k: nat)
    requires InScope(scope, x)
    ensures k < |scope| && x in scope[k]
  {
    if x in scope[0] then 0
    else
      assert exists k :: 0 <= k < |scope[1..]| && x in scope[1..][k] by {
        var k :| 0 <= k < |scope| && x in scope[k];
        assert scope[1..][k - 1] == scope[k];
      }
      1 + Binder(scope[1..], x)
  }

  function Lookup(env: seq<Frame>, x: Symbol): Value
    requires InScope(ScopeOf(env), x)
  {
    var k := Binder(ScopeOf(env), x);
    env[k].bindings[IndexOf(env[k].Names(), x)].val
  }

  function Inject(d: Datum): Value {
    match d
    case IntD(i) => IntV(i)
    case BoolD(b) => BoolV(b)
    case NilD => NilV
    case SymD(s) => SymV(s)
    case PairD(a, b) => PairV(Inject(a), Inject(b))
  }

  /** C division truncates toward zero. */
  function TruncDiv(a: int, b: int): int
    requires b != 0
  {
    if (a >= 0) == (b > 0) then (if b > 0 then a / b else (-a) / (-b))
    else -((if a >= 0 then a else -a) / (if b > 0 then b else -b))
  }

  /** One step of n-ary arithmetic; None stands for division by zero. */
  function Combine(op: ArithOp, a: int, b: int): Option<int> {
    match op
    case Add => Some(a + b)
    case Sub => Some(a - b)
    case Mul => Some(a * b)
    case Div => if b == 0 then None else Some(TruncDiv(a, b))
  }

  function Fold(op: ArithOp, acc: int, xs: seq<int>): Option<int>
    decreases |xs|
  {
    if xs == [] then Some(acc)
    else
      match Combine(op, acc, xs[0])
      case None => None
      case Some(a) => Fold(op, a, xs[1..])
  }

  /** The library procedures +, -, * and / on integers. */
  function Arithmetic(op: ArithOp, xs: seq<int>): Option<int> {
    if op == Add then Fold(Add, 0, xs)
    else if xs == [] then None
    else if |xs| == 1 then
      if op == Sub then Some(-xs[0])
      else if op == Div then Combine(Div, 1, xs[0])
      else Some(xs[0])
    else Fold(op, xs[0], xs[1..])
  }

  predicate AllInts(vs: seq<Value>) {
    forall i :: 0 <= i < |vs| ==> vs[i].IntV?
  }

  function Ints(vs: seq<Value>): (xs: seq<int>)
    requires AllInts(vs)
    ensures |xs| == |vs|
  {
    seq(|vs|, i requires 0 <= i < |vs| => vs[i].i)
  }

  function ApplyPrim(p: Prim, vs: seq<Value>): Outcome {
    match p
    case Cons => if |vs| == 2 then Val(PairV(vs[0], vs[1])) else Err
    case Car => if |vs| == 1 && vs[0].PairV? then Val(vs[0].first) else Err
    case Cdr => if |vs| == 1 && vs[0].PairV? then Val(vs[0].rest) else Err
    case IsPair => if |vs| == 1 then Val(BoolV(vs[0].PairV?)) else Err
    case Arith(op) =>
      if !AllInts(vs) then Err
      else
        match Arithmetic(op, Ints(vs))
        case None => Err
        case Some(i) => Val(IntV(i))
  }

  function EvalVar(g: Globals, env: seq<Frame>, x: Symbol): Outcome {
    if InScope(ScopeOf(env), x) then Val(Lookup(env, x))
    else if x in g.modules then Val(PrimV(g.modules[x]))
    else if x in g.defs then Val(g.defs[x])
    else Err
  }

  /** The value of an expression.  Fuel bounds the depth of closure applications. */
  function Eval(g: Globals, e: Expr, env: seq<Frame>, fuel: nat): Outcome
    decreases fuel, 1, e, 1
  {
    match e
    case Num(i) => Val(IntV(i))
    case Flag(b) => Val(BoolV(b))
    case Quote(d) => Val(Inject(d))
    case Var(x) => EvalVar(g, env, x)
    case Lambda(params, init, last) => Val(Closure(params, init, last, env))
    case If(test, yes, no) =>
      (match Eval(g, test, env, fuel)
       case Val(v) => if v != BoolV(false) then Eval(g, yes, env, fuel) else Eval(g, no, env, fuel)
       case other => other)
    case Call(f, args) =>
      (match Eval(g, f, env, fuel)
       case Val(fv) =>
         (match EvalArgs(g, args, env, fuel)
          case Vals(vs) => Apply(g, fv, vs, fuel)
          case ErrS => Err
          case TimeoutS => Timeout)
       case other => other)
  }

  function EvalArgs(g: Globals, args: seq<Expr>, env: seq<Frame>, fuel: nat): (r: Outcomes)
    ensures r.Vals? ==> |r.vs| == |args|
    decreases fuel, 1, args, 0
  {
    if args == [] then Vals([])
    else
      match Eval(g, args[0], env, fuel)
      case Err => ErrS
      case Timeout => TimeoutS
      case Val(v) =>
        match EvalArgs(g, args[1..], env, fuel)
        case Vals(vs) => Vals([v] + vs)
        case other => other
  }

  /** Applying a closure costs one unit of fuel. */
  function Apply(g: Globals, fv: Value, vs: seq<Value>, fuel: nat): Outcome
    decreases fuel, 0
  {
    match fv
    case PrimV(p) => ApplyPrim(p, vs)
    case Closure(params, init, last, env) =>
      if |vs| != |params| then Err
      else if fuel == 0 then Timeout
      else EvalBody(g, init, last, [Bind(params, vs)] + env, fuel - 1)
    case _ => Err
  }

  /** Expressions in order; the last one gives the value. */
  function EvalBody(g: Globals, init: seq<Expr>, last: Expr, env: seq<Frame>, fuel: nat): Outcome
    decreases fuel, 2, |init|
  {
    if init == [] then Eval(g, last, env, fuel)
    else
      match Eval(g, init[0], env, fuel)
      case Val(_) => EvalBody(g, init[1..], last, env, fuel)
      case other => other
  }
}
