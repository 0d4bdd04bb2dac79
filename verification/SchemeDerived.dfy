/** The forms that the reader rewrites into core forms, and that the rewriting keeps what they mean. */
module SchemeDerived {
  import opened Scheme
  import opened SchemeAlike

  // --- the rewritten forms

  const V: Symbol := "v"

  function AndForm(es: seq<Expr>): Expr {
    if es == [] then Flag(true) else if |es| == 1 then es[0] else If(es[0], AndForm(es[1..]), Flag(false))
  }

  function OrForm(es: seq<Expr>): Expr {
    if es == [] then Flag(false) else if |es| == 1 then es[0]
    else Call(Lambda([V], [], If(Var(V), Var(V), OrForm(es[1..]))), [es[0]])
  }

  function LetForm(keys: seq<Symbol>, vals: seq<Expr>, init: seq<Expr>, last: Expr): Expr {
    Call(Lambda(keys, init, last), vals)
  }

  function BeginForm(init: seq<Expr>, last: Expr): Expr {
    Call(Lambda([], init, last), [])
  }

  // --- what the forms mean: sections 4.2.1 to 4.2.3 of R7RS

  /** The operands in turn, until one is false; the last one's value otherwise. */
  function AndMeaning(g: Globals, es: seq<Expr>, env: seq<Frame>, fuel: nat): Outcome {
    if es == [] then Val(BoolV(true)) else if |es| == 1 then Eval(g, es[0], env, fuel)
    else
      match Eval(g, es[0], env, fuel)
      case Val(v) => if v == BoolV(false) then Val(v) else AndMeaning(g, es[1..], env, fuel)
      case other => other
  }

  /** The operands in turn, until one is not false. */
  function OrMeaning(g: Globals, es: seq<Expr>, env: seq<Frame>, fuel: nat): Outcome {
    if es == [] then Val(BoolV(false)) else if |es| == 1 then Eval(g, es[0], env, fuel)
    else
      match Eval(g, es[0], env, fuel)
      case Val(v) => if v == BoolV(false) then OrMeaning(g, es[1..], env, fuel) else Val(v)
      case other => other
  }

  /** The initial values are found outside the new variables; the body inside. */
  function LetMeaning(g: Globals, keys: seq<Symbol>, vals: seq<Expr>, init: seq<Expr>, last: Expr, env: seq<Frame>,
                      fuel: nat): Outcome
    requires |keys| == |vals|
  {
    match EvalArgs(g, vals, env, fuel)
    case Vals(vs) => EvalBody(g, init, last, [Bind(keys, vs)] + env, fuel)
    case ErrS => Err
    case TimeoutS => Timeout
  }

  /** Expressions in order. */
  function BeginMeaning(g: Globals, init: seq<Expr>, last: Expr, env: seq<Frame>, fuel: nat): Outcome {
    EvalBody(g, init, last, env, fuel)
  }

  // --- and

  lemma {:induction false} AndPreserved(g: Globals, es: seq<Expr>, env: seq<Frame>, fuel: nat)
    ensures Eval(g, AndForm(es), env, fuel) == AndMeaning(g, es, env, fuel)
  {
    if |es| > 1 {
      AndPreserved(g, es[1..], env, fuel);
    }
  }

  // --- let

  lemma LetPreserved(g: Globals, keys: seq<Symbol>, vals: seq<Expr>, init: seq<Expr>, last: Expr, env: seq<Frame>,
                     fuel: nat)
    requires |keys| == |vals|
    ensures var e := LetForm(keys, vals, init, last); var m := LetMeaning(g, keys, vals, init, last, env, fuel);
      && (m != Timeout ==> Eval(g, e, env, fuel + 1) == m)
      && (Eval(g, e, env, fuel) != Timeout ==> m == Eval(g, e, env, fuel))
  {
    var e := LetForm(keys, vals, init, last);
    LetUnfold(g, keys, vals, init, last, env, fuel);
    LetUnfold(g, keys, vals, init, last, env, fuel + 1);
    if LetMeaning(g, keys, vals, init, last, env, fuel) != Timeout {
      MoreFuelArgs(g, vals, env, fuel, fuel + 1);
    }
    if Eval(g, e, env, fuel) != Timeout && EvalArgs(g, vals, env, fuel).Vals? {
      MoreFuelBody(g, init, last, [Bind(keys, EvalArgs(g, vals, env, fuel).vs)] + env, fuel - 1, fuel);
    }
  }

  lemma LetUnfold(g: Globals, keys: seq<Symbol>, vals: seq<Expr>, init: seq<Expr>, last: Expr, env: seq<Frame>,
                  fuel: nat)
    requires |keys| == |vals|
    ensures Eval(g, LetForm(keys, vals, init, last), env, fuel)
         == match EvalArgs(g, vals, env, fuel)
            case Vals(vs) => if fuel == 0 then Timeout else EvalBody(g, init, last, [Bind(keys, vs)] + env, fuel - 1)
            case ErrS => Err
            case TimeoutS => Timeout
  {
  }

  // --- begin

  lemma BeginPreserved(g: Globals, init: seq<Expr>, last: Expr, env: seq<Frame>, fuel: nat)
    ensures OutcomeLike(BeginMeaning(g, init, last, env, fuel), Eval(g, BeginForm(init, last), env, fuel + 1))
    ensures Eval(g, BeginForm(init, last), env, fuel) != Timeout ==>
      OutcomeLike(BeginMeaning(g, init, last, env, fuel), Eval(g, BeginForm(init, last), env, fuel))
  {
    var inner := [Bind([], [])] + env;
    BeginUnfold(g, init, last, env, fuel);
    BeginUnfold(g, init, last, env, fuel + 1);
    NoVariables(FreeAll(init) + Free(last), env);
    BodyLike(g, init, last, env, inner, fuel);
    if Eval(g, BeginForm(init, last), env, fuel) != Timeout {
      MoreFuelBody(g, init, last, inner, fuel - 1, fuel);
    }
    hide Like;
  }

  lemma BeginUnfold(g: Globals, init: seq<Expr>, last: Expr, env: seq<Frame>, fuel: nat)
    ensures Eval(g, BeginForm(init, last), env, fuel)
         == if fuel == 0 then Timeout else EvalBody(g, init, last, [Bind([], [])] + env, fuel - 1)
  {
  }

  /** A frame with none of the names, put before an environment. */
  lemma Inserted(names: set<Symbol>, f: Frame, env: seq<Frame>, env': seq<Frame>)
    requires EnvLike(names, env, env') && Members(f.Names()) !! names
    ensures EnvLike(names, env, [f] + env')
  {
    assert ([f] + env')[1..] == env';
  }

  lemma NoVariables(names: set<Symbol>, env: seq<Frame>)
    ensures EnvLike(names, env, [Bind([], [])] + env)
  {
    EnvLikeSelf(names, env);
    assert Bind([], []).Names() == [];
    Inserted(names, Bind([], []), env, env);
  }

  // --- or

  lemma OrUnfold(g: Globals, es: seq<Expr>, env: seq<Frame>, fuel: nat)
    requires |es| > 1
    ensures var a := Eval(g, es[0], env, fuel);
      Eval(g, OrForm(es), env, fuel)
      == if !a.Val? then a else if fuel == 0 then Timeout else if a.v != BoolV(false) then a
         else Eval(g, OrForm(es[1..]), [Bind([V], [a.v])] + env, fuel - 1)
  {
    var a := Eval(g, es[0], env, fuel);
    var rest := OrForm(es[1..]);
    var body := If(Var(V), Var(V), rest);
    hide OrForm;
    OneArg(g, es[0], env, fuel);
    if a.Val? && fuel > 0 {
      VarV(g, a.v, env);
      var inner := [Bind([V], [a.v])] + env;
      assert Eval(g, Var(V), inner, fuel - 1) == Val(a.v);
    }
    OrCall(g, es, rest, env, fuel);
  }

  lemma OneArg(g: Globals, e: Expr, env: seq<Frame>, fuel: nat)
    ensures var a := Eval(g, e, env, fuel);
      EvalArgs(g, [e], env, fuel) == if a.Val? then Vals([a.v]) else if a == Err then ErrS else TimeoutS
  {
    assert [e][1..] == [];
    assert EvalArgs(g, [], env, fuel) == Vals([]);
  }

  lemma VarV(g: Globals, v: Value, env: seq<Frame>)
    ensures EvalVar(g, [Bind([V], [v])] + env, V) == Val(v)
  {
    var inner := [Bind([V], [v])] + env;
    assert inner[0].Names() == [V];
    ScopeStep(inner, V);
    assert IndexOf([V], V) == 0;
  }

  lemma OrCall(g: Globals, es: seq<Expr>, rest: Expr, env: seq<Frame>, fuel: nat)
    requires |es| > 1 && rest == OrForm(es[1..])
    ensures var body := If(Var(V), Var(V), rest); var args := EvalArgs(g, [es[0]], env, fuel);
      Eval(g, OrForm(es), env, fuel)
      == if args.Vals? then (if fuel == 0 then Timeout else Eval(g, body, [Bind([V], args.vs)] + env, fuel - 1))
         else if args.ErrS? then Err else Timeout
  {
    var body := If(Var(V), Var(V), rest);
    var lam := Lambda([V], [], body);
    assert OrForm(es) == Call(lam, [es[0]]);
    hide OrForm;
    var closure := Closure([V], [], body, env);
    assert Eval(g, lam, env, fuel) == Val(closure);
    var args := EvalArgs(g, [es[0]], env, fuel);
    if args.Vals? && fuel > 0 {
      assert Apply(g, closure, args.vs, fuel) == EvalBody(g, [], body, [Bind([V], args.vs)] + env, fuel - 1);
    }
  }

  lemma {:induction false} OrFree(es: seq<Expr>)
    ensures Free(OrForm(es)) <= FreeAll(es)
  {
    if |es| == 1 {
      assert es[1..] == [];
    } else if |es| > 1 {
      OrFree(es[1..]);
      var rest := OrForm(es[1..]);
      hide OrForm;
      LambdaFree(es, rest);
    }
  }

  lemma LambdaFree(es: seq<Expr>, rest: Expr)
    requires |es| > 1 && rest == OrForm(es[1..]) && Free(rest) <= FreeAll(es[1..])
    ensures Free(OrForm(es)) <= FreeAll(es)
  {
    var body := If(Var(V), Var(V), rest);
    assert Free(body) == {V} + {V} + Free(rest);
    assert Members([V]) == {V};
    assert FreeAll([]) == {};
    var lam := Lambda([V], [], body);
    assert Free(lam) == FreeAll([]) + Free(body) - Members([V]);
    assert [es[0]][1..] == [];
    assert FreeAll([es[0]]) == Free(es[0]) + FreeAll([]);
    assert OrForm(es) == Call(lam, [es[0]]);
  }

  lemma {:induction false} MoreFuelOr(g: Globals, es: seq<Expr>, env: seq<Frame>, fuel: nat, more: nat)
    requires fuel <= more && OrMeaning(g, es, env, fuel) != Timeout
    ensures OrMeaning(g, es, env, more) == OrMeaning(g, es, env, fuel)
  {
    if es != [] {
      MoreFuel(g, es[0], env, fuel, more);
      if |es| > 1 && Eval(g, es[0], env, fuel) == Val(BoolV(false)) {
        MoreFuelOr(g, es[1..], env, fuel, more);
      }
    }
  }

  /** The environment of the later operands: the variable of the rewriting is one they do not use. */
  lemma LaterEnv(es: seq<Expr>, v: Value, env: seq<Frame>, env': seq<Frame>)
    requires es != [] && EnvLike(FreeAll(es), env, env') && V !in FreeAll(es[1..])
    ensures EnvLike(FreeAll(es[1..]), env, [Bind([V], [v])] + env')
  {
    EnvLikeLess(FreeAll(es), FreeAll(es[1..]), env, env');
    assert Bind([V], [v]).Names() == [V];
    Inserted(FreeAll(es[1..]), Bind([V], [v]), env, env');
  }

  lemma FalseOnly(a: Outcome, b: Outcome)
    requires OutcomeLike(a, b)
    ensures a == Val(BoolV(false)) <==> b == Val(BoolV(false))
  {
  }

  lemma FalseLike()
    ensures OutcomeLike(Val(BoolV(false)), Val(BoolV(false)))
  {
  }

  /** What the form means is what its rewriting computes, given fuel for the added procedures. */
  lemma {:induction false} OrForward(g: Globals, es: seq<Expr>, env: seq<Frame>, env': seq<Frame>, fuel: nat)
    requires EnvLike(FreeAll(es), env, env') && (es != [] ==> V !in FreeAll(es[1..]))
    requires OrMeaning(g, es, env, fuel) != Timeout
    ensures OutcomeLike(OrMeaning(g, es, env, fuel), Eval(g, OrForm(es), env', fuel + |es|))
    decreases |es|
  {
    hide Eval, EnvLike, Like;
    if es != [] {
      EnvLikeLess(FreeAll(es), Free(es[0]), env, env');
      EvalLike(g, es[0], env, env', fuel);
      MoreFuel(g, es[0], env', fuel, fuel + |es|);
      if |es| > 1 {
        OrUnfold(g, es, env', fuel + |es|);
        var a, b := Eval(g, es[0], env, fuel), Eval(g, es[0], env', fuel);
        FalseOnly(a, b);
        if a == Val(BoolV(false)) {
          LaterEnv(es, b.v, env, env');
          assert FreeAll(es[1..]) == Free(es[1]) + FreeAll(es[2..]) by { assert es[1..][1..] == es[2..]; }
          assert es[1..][1..] == es[2..];
          OrForward(g, es[1..], env, [Bind([V], [b.v])] + env', fuel);
          assert fuel + |es| - 1 == fuel + |es[1..]|;
        }
      }
    } else {
      FalseLike();
      NoOperands(g, env', fuel);
    }
  }

  lemma NoOperands(g: Globals, env: seq<Frame>, fuel: nat)
    ensures Eval(g, OrForm([]), env, fuel) == Val(BoolV(false))
  {
  }

  /** What the rewriting computes is what the form means. */
  lemma {:induction false} OrBackward(g: Globals, es: seq<Expr>, env: seq<Frame>, env': seq<Frame>, fuel: nat)
    requires EnvLike(FreeAll(es), env, env') && (es != [] ==> V !in FreeAll(es[1..]))
    requires Eval(g, OrForm(es), env', fuel) != Timeout
    ensures OutcomeLike(OrMeaning(g, es, env, fuel), Eval(g, OrForm(es), env', fuel))
    decreases |es|
  {
    hide Eval, EnvLike, Like;
    if es != [] {
      EnvLikeLess(FreeAll(es), Free(es[0]), env, env');
      EvalLike(g, es[0], env, env', fuel);
      if |es| > 1 {
        OrUnfold(g, es, env', fuel);
        var b := Eval(g, es[0], env', fuel);
        FalseOnly(Eval(g, es[0], env, fuel), b);
        if b == Val(BoolV(false)) {
          LaterEnv(es, b.v, env, env');
          assert FreeAll(es[1..]) == Free(es[1]) + FreeAll(es[2..]) by { assert es[1..][1..] == es[2..]; }
          assert es[1..][1..] == es[2..];
          OrBackward(g, es[1..], env, [Bind([V], [b.v])] + env', fuel - 1);
          MoreFuelOr(g, es[1..], env, fuel - 1, fuel);
        }
      }
    } else {
      FalseLike();
      NoOperands(g, env', fuel);
    }
  }

  /** Rewriting `or` keeps its meaning when no operand but the first uses `v` from outside. */
  lemma OrPreserved(g: Globals, es: seq<Expr>, env: seq<Frame>, fuel: nat)
    requires es != [] ==> V !in FreeAll(es[1..])
    ensures OrMeaning(g, es, env, fuel) != Timeout ==>
      OutcomeLike(OrMeaning(g, es, env, fuel), Eval(g, OrForm(es), env, fuel + |es|))
    ensures Eval(g, OrForm(es), env, fuel) != Timeout ==>
      OutcomeLike(OrMeaning(g, es, env, fuel), Eval(g, OrForm(es), env, fuel))
  {
    EnvLikeSelf(FreeAll(es), env);
    hide EnvLike, Eval, OrMeaning, OrForm;
    if OrMeaning(g, es, env, fuel) != Timeout {
      OrForward(g, es, env, env, fuel);
    }
    if Eval(g, OrForm(es), env, fuel) != Timeout {
      OrBackward(g, es, env, env, fuel);
    }
  }

  /** Otherwise it may not: where `e` is false, `(or e v)` is what `v` is, but its rewriting is false. */
  lemma OrCaptures(g: Globals, e: Expr, env: seq<Frame>, fuel: nat)
    requires fuel > 0 && Eval(g, e, env, fuel) == Val(BoolV(false)) && InScope(ScopeOf(env), V)
    ensures OrMeaning(g, [e, Var(V)], env, fuel) == Val(Lookup(env, V))
    ensures Eval(g, OrForm([e, Var(V)]), env, fuel) == Val(BoolV(false))
  {
    var es := [e, Var(V)];
    assert es[1..] == [Var(V)];
    VarV(g, BoolV(false), env);
    OrUnfold(g, es, env, fuel);
    assert OrForm(es[1..]) == Var(V);
  }
}
