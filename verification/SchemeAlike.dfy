/** What the evaluator does not depend on: surplus fuel, and frames that bind nothing an expression uses. */
module SchemeAlike {
  import opened Scheme

  // --- more fuel changes nothing once there is enough

  lemma {:induction false} MoreFuel(g: Globals, e: Expr, env: seq<Frame>, fuel: nat, more: nat)
    requires fuel <= more && Eval(g, e, env, fuel) != Timeout
    ensures Eval(g, e, env, more) == Eval(g, e, env, fuel)
    decreases fuel, 1, e, 1
  {
    match e
    case If(test, yes, no) =>
      MoreFuel(g, test, env, fuel, more);
      var t := Eval(g, test, env, fuel);
      if t.Val? {
        if t.v != BoolV(false) {
          MoreFuel(g, yes, env, fuel, more);
        } else {
          MoreFuel(g, no, env, fuel, more);
        }
      }
    case Call(f, args) =>
      MoreFuel(g, f, env, fuel, more);
      var fv := Eval(g, f, env, fuel);
      if fv.Val? {
        MoreFuelArgs(g, args, env, fuel, more);
        var vs := EvalArgs(g, args, env, fuel);
        if vs.Vals? {
          MoreFuelApply(g, fv.v, vs.vs, fuel, more);
        }
      }
    case _ =>
  }

  lemma {:induction false} MoreFuelArgs(g: Globals, args: seq<Expr>, env: seq<Frame>, fuel: nat, more: nat)
    requires fuel <= more && EvalArgs(g, args, env, fuel) != TimeoutS
    ensures EvalArgs(g, args, env, more) == EvalArgs(g, args, env, fuel)
    decreases fuel, 1, args, 0
  {
    if args != [] {
      MoreFuel(g, args[0], env, fuel, more);
      if Eval(g, args[0], env, fuel).Val? {
        MoreFuelArgs(g, args[1..], env, fuel, more);
      }
    }
  }

  lemma {:induction false} MoreFuelApply(g: Globals, fv: Value, vs: seq<Value>, fuel: nat, more: nat)
    requires fuel <= more && Apply(g, fv, vs, fuel) != Timeout
    ensures Apply(g, fv, vs, more) == Apply(g, fv, vs, fuel)
    decreases fuel, 0
  {
    if fv.Closure? && |vs| == |fv.params| {
      MoreFuelBody(g, fv.init, fv.last, [Bind(fv.params, vs)] + fv.env, fuel - 1, more - 1);
    }
  }

  lemma {:induction false} MoreFuelBody(g: Globals, init: seq<Expr>, last: Expr, env: seq<Frame>, fuel: nat, more: nat)
    requires fuel <= more && EvalBody(g, init, last, env, fuel) != Timeout
    ensures EvalBody(g, init, last, env, more) == EvalBody(g, init, last, env, fuel)
    decreases fuel, 2, |init|
  {
    if init == [] {
      MoreFuel(g, last, env, fuel, more);
    } else {
      MoreFuel(g, init[0], env, fuel, more);
      if Eval(g, init[0], env, fuel).Val? {
        MoreFuelBody(g, init[1..], last, env, fuel, more);
      }
    }
  }

  // --- the variables an expression takes from outside

  function Free(e: Expr): set<Symbol>
    decreases e, 1
  {
    match e
    case Var(x) => {x}
    case If(test, yes, no) => Free(test) + Free(yes) + Free(no)
    case Lambda(params, init, last) => FreeAll(init) + Free(last) - Members(params)
    case Call(f, args) => Free(f) + FreeAll(args)
    case _ => {}
  }

  function FreeAll(es: seq<Expr>): set<Symbol>
    decreases es, 0
  {
    if es == [] then {} else Free(es[0]) + FreeAll(es[1..])
  }

  function Members(xs: seq<Symbol>): set<Symbol> {
    set x | x in xs
  }

  function FreeIn(params: seq<Symbol>, init: seq<Expr>, last: Expr): set<Symbol> {
    FreeAll(init) + Free(last) - Members(params)
  }

  // --- values that no program can tell apart

  /** The same values; closures may differ in frames that bind nothing their bodies use. */
  ghost predicate Like(v: Value, w: Value)
    decreases v, 0
  {
    match v
    case PairV(a, b) => w.PairV? && Like(a, w.first) && Like(b, w.rest)
    case Closure(params, init, last, env) =>
      w.Closure? && w.params == params && w.init == init && w.last == last
        && EnvLike(FreeIn(params, init, last), env, w.env)
    case _ => w == v
  }

  /** The second environment has the frames of the first and perhaps others, which bind none of the names. */
  ghost predicate EnvLike(names: set<Symbol>, env: seq<Frame>, env': seq<Frame>)
    decreases env, 1 + |env'|
  {
    || (env == [] && env' == [])
    || (env' != [] && Members(env'[0].Names()) !! names && EnvLike(names, env, env'[1..]))
    || (env != [] && env' != [] && FrameLike(env[0], env'[0])
      && EnvLike(names - Members(env[0].Names()), env[1..], env'[1..]))
  }

  ghost predicate FrameLike(f: Frame, f': Frame)
    decreases f, 0
  {
    && f.Names() == f'.Names()
    && forall i :: 0 <= i < |f.bindings| && i < |f'.bindings| ==> Like(f.bindings[i].val, f'.bindings[i].val)
  }

  ghost predicate AllLike(vs: seq<Value>, ws: seq<Value>) {
    |vs| == |ws| && forall i :: 0 <= i < |vs| ==> Like(vs[i], ws[i])
  }

  ghost predicate OutcomeLike(a: Outcome, b: Outcome) {
    if a.Val? then b.Val? && Like(a.v, b.v) else b == a
  }

  ghost predicate OutcomesLike(a: Outcomes, b: Outcomes) {
    if a.Vals? then b.Vals? && AllLike(a.vs, b.vs) else b == a
  }

  lemma {:induction false} LikeSelf(v: Value)
    ensures Like(v, v)
    decreases v, 0
  {
    match v
    case PairV(a, b) =>
      LikeSelf(a);
      LikeSelf(b);
    case Closure(params, init, last, env) => EnvLikeSelf(FreeIn(params, init, last), env);
    case _ =>
  }

  lemma {:induction false} EnvLikeSelf(names: set<Symbol>, env: seq<Frame>)
    ensures EnvLike(names, env, env)
    decreases env, 1
  {
    if env != [] {
      FrameLikeSelf(env[0]);
      EnvLikeSelf(names - Members(env[0].Names()), env[1..]);
    }
  }

  lemma {:induction false} FrameLikeSelf(f: Frame)
    ensures FrameLike(f, f)
    decreases f, 0
  {
    forall i | 0 <= i < |f.bindings| ensures Like(f.bindings[i].val, f.bindings[i].val) {
      LikeSelf(f.bindings[i].val);
    }
  }

  lemma {:induction false} EnvLikeLess(names: set<Symbol>, fewer: set<Symbol>, env: seq<Frame>, env': seq<Frame>)
    requires EnvLike(names, env, env') && fewer <= names
    ensures EnvLike(fewer, env, env')
    decreases |env| + |env'|
  {
    if env == [] && env' == [] {
    } else if env' != [] && Members(env'[0].Names()) !! names && EnvLike(names, env, env'[1..]) {
      EnvLikeLess(names, fewer, env, env'[1..]);
    } else {
      var bound := Members(env[0].Names());
      EnvLikeLess(names - bound, fewer - bound, env[1..], env'[1..]);
    }
  }

  // --- looking a name up

  lemma ScopeStep(env: seq<Frame>, x: Symbol)
    requires env != []
    ensures InScope(ScopeOf(env), x) <==> x in env[0].Names() || InScope(ScopeOf(env[1..]), x)
    ensures x in env[0].Names() ==> Lookup(env, x) == env[0].bindings[IndexOf(env[0].Names(), x)].val
    ensures x !in env[0].Names() && InScope(ScopeOf(env), x) ==> Lookup(env, x) == Lookup(env[1..], x)
  {
    var s := ScopeOf(env);
    assert s[1..] == ScopeOf(env[1..]);
    if x in env[0].Names() {
      assert x in s[0];
    }
    if InScope(s[1..], x) {
      var k :| 0 <= k < |s[1..]| && x in s[1..][k];
      assert x in s[k + 1];
    }
    if InScope(s, x) && x !in s[0] {
      var k :| 0 <= k < |s| && x in s[k];
      assert x in s[1..][k - 1];
    }
  }

  lemma {:induction false} LookupLike(names: set<Symbol>, env: seq<Frame>, env': seq<Frame>, x: Symbol)
    requires EnvLike(names, env, env') && x in names
    ensures InScope(ScopeOf(env), x) <==> InScope(ScopeOf(env'), x)
    ensures InScope(ScopeOf(env), x) ==> Like(Lookup(env, x), Lookup(env', x))
    decreases |env| + |env'|
  {
    hide Lookup, InScope, Like, FrameLike;
    if env == [] && env' == [] {
      NothingInScope(x);
    } else if env' != [] && Members(env'[0].Names()) !! names && EnvLike(names, env, env'[1..]) {
      LookupLike(names, env, env'[1..], x);
      ScopeStep(env', x);
      assert x !in env'[0].Names();
    } else {
      ScopeStep(env, x);
      ScopeStep(env', x);
      FrameAt(env[0], env'[0], x);
      if x !in env[0].Names() {
        LookupLike(names - Members(env[0].Names()), env[1..], env'[1..], x);
      }
    }
  }

  lemma NothingInScope(x: Symbol)
    ensures !InScope(ScopeOf([]), x)
  {
  }

  lemma FrameAt(f: Frame, f': Frame, x: Symbol)
    requires FrameLike(f, f')
    ensures x in f.Names() <==> x in f'.Names()
    ensures x in f.Names() ==>
      Like(f.bindings[IndexOf(f.Names(), x)].val, f'.bindings[IndexOf(f'.Names(), x)].val)
  {
  }

  // --- evaluating in environments that are alike

  lemma VarLike(g: Globals, x: Symbol, names: set<Symbol>, env: seq<Frame>, env': seq<Frame>)
    requires EnvLike(names, env, env') && x in names
    ensures OutcomeLike(EvalVar(g, env, x), EvalVar(g, env', x))
  {
    LookupLike(names, env, env', x);
    if x in g.defs {
      LikeSelf(g.defs[x]);
    }
    hide Lookup, InScope;
  }

  lemma IntsLike(vs: seq<Value>, ws: seq<Value>)
    requires AllLike(vs, ws)
    ensures AllInts(vs) <==> AllInts(ws)
    ensures AllInts(vs) ==> Ints(vs) == Ints(ws)
  {
    forall i | 0 <= i < |vs| ensures vs[i].IntV? <==> ws[i].IntV? {
      assert Like(vs[i], ws[i]);
    }
    if AllInts(vs) {
      forall i | 0 <= i < |vs| ensures Ints(vs)[i] == Ints(ws)[i] {
        assert Like(vs[i], ws[i]);
      }
    }
  }

  lemma PrimLike(p: Prim, vs: seq<Value>, ws: seq<Value>)
    requires AllLike(vs, ws)
    ensures OutcomeLike(ApplyPrim(p, vs), ApplyPrim(p, ws))
  {
    IntsLike(vs, ws);
    hide Arithmetic;
  }

  lemma BodyEnvLike(params: seq<Symbol>, init: seq<Expr>, last: Expr, vs: seq<Value>, ws: seq<Value>, env: seq<Frame>,
                    env': seq<Frame>)
    requires AllLike(vs, ws) && |vs| == |params| && EnvLike(FreeIn(params, init, last), env, env')
    ensures EnvLike(FreeAll(init) + Free(last), [Bind(params, vs)] + env, [Bind(params, ws)] + env')
  {
    var a, b := [Bind(params, vs)] + env, [Bind(params, ws)] + env';
    assert a[1..] == env && b[1..] == env';
    assert FrameLike(a[0], b[0]);
    hide Like, FrameLike;
  }

  lemma {:induction false} EvalLike(g: Globals, e: Expr, env: seq<Frame>, env': seq<Frame>, fuel: nat)
    requires EnvLike(Free(e), env, env')
    ensures OutcomeLike(Eval(g, e, env, fuel), Eval(g, e, env', fuel))
    decreases fuel, 1, e, 1
  {
    match e
    case Var(x) => VarLike(g, x, Free(e), env, env');
    case Lambda(params, init, last) =>
    case If(test, yes, no) =>
      EnvLikeLess(Free(e), Free(test), env, env');
      EnvLikeLess(Free(e), Free(yes), env, env');
      EnvLikeLess(Free(e), Free(no), env, env');
      hide EnvLike;
      EvalLike(g, test, env, env', fuel);
      IfLike(g, e, env, env', fuel);
      EvalLike(g, yes, env, env', fuel);
      EvalLike(g, no, env, env', fuel);
    case Call(f, args) =>
      EnvLikeLess(Free(e), Free(f), env, env');
      EnvLikeLess(Free(e), FreeAll(args), env, env');
      hide EnvLike, Like;
      EvalLike(g, f, env, env', fuel);
      EvalArgsLike(g, args, env, env', fuel);
      var fv, fw := Eval(g, f, env, fuel), Eval(g, f, env', fuel);
      var vs, ws := EvalArgs(g, args, env, fuel), EvalArgs(g, args, env', fuel);
      if fv.Val? && vs.Vals? {
        ApplyLike(g, fv.v, fw.v, vs.vs, ws.vs, fuel);
      }
    case Quote(d) => LikeSelf(Inject(d));
    case _ =>
  }

  /** A test decides the same way. */
  lemma IfLike(g: Globals, e: Expr, env: seq<Frame>, env': seq<Frame>, fuel: nat)
    requires e.If? && OutcomeLike(Eval(g, e.test, env, fuel), Eval(g, e.test, env', fuel))
    ensures Eval(g, e.test, env, fuel).Val? ==>
      (Eval(g, e.test, env, fuel).v == BoolV(false) <==> Eval(g, e.test, env', fuel).v == BoolV(false))
  {
    hide Eval, EnvLike;
  }

  lemma {:induction false} EvalArgsLike(g: Globals, args: seq<Expr>, env: seq<Frame>, env': seq<Frame>, fuel: nat)
    requires EnvLike(FreeAll(args), env, env')
    ensures OutcomesLike(EvalArgs(g, args, env, fuel), EvalArgs(g, args, env', fuel))
    decreases fuel, 1, args, 0
  {
    if args != [] {
      hide EnvLike, Like, Eval;
      EnvLikeLess(FreeAll(args), Free(args[0]), env, env');
      EnvLikeLess(FreeAll(args), FreeAll(args[1..]), env, env');
      EvalLike(g, args[0], env, env', fuel);
      EvalArgsLike(g, args[1..], env, env', fuel);
    }
  }

  lemma {:induction false} ApplyLike(g: Globals, fv: Value, fw: Value, vs: seq<Value>, ws: seq<Value>, fuel: nat)
    requires Like(fv, fw) && AllLike(vs, ws)
    ensures OutcomeLike(Apply(g, fv, vs, fuel), Apply(g, fw, ws, fuel))
    decreases fuel, 0
  {
    if fv.PrimV? {
      PrimLike(fv.p, vs, ws);
      hide Like;
    } else if fv.Closure? && |vs| == |fv.params| && fuel > 0 {
      BodyEnvLike(fv.params, fv.init, fv.last, vs, ws, fv.env, fw.env);
      hide EnvLike, Like;
      BodyLike(g, fv.init, fv.last, [Bind(fv.params, vs)] + fv.env, [Bind(fv.params, ws)] + fw.env, fuel - 1);
    } else {
      hide EnvLike;
    }
  }

  lemma {:induction false} BodyLike(g: Globals, init: seq<Expr>, last: Expr, env: seq<Frame>, env': seq<Frame>,
                                    fuel: nat)
    requires EnvLike(FreeAll(init) + Free(last), env, env')
    ensures OutcomeLike(EvalBody(g, init, last, env, fuel), EvalBody(g, init, last, env', fuel))
    decreases fuel, 2, |init|
  {
    EnvLikeLess(FreeAll(init) + Free(last), Free(last), env, env');
    if init == [] {
      hide EnvLike, Like;
      EvalLike(g, last, env, env', fuel);
    } else {
      EnvLikeLess(FreeAll(init) + Free(last), Free(init[0]), env, env');
      EnvLikeLess(FreeAll(init) + Free(last), FreeAll(init[1..]) + Free(last), env, env');
      hide EnvLike, Like;
      EvalLike(g, init[0], env, env', fuel);
      BodyLike(g, init[1..], last, env, env', fuel);
    }
  }
}
