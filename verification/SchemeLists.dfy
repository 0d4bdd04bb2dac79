/** How the lists kept during compilation grow. */
module SchemeLists {
  import opened Lists
  import opened Scheme
  import opened SchemeMachine
  import opened SchemeCode

  /** Requests name variables of outer lambdas only. */
  predicate Outer(scope: seq<seq<Symbol>>, xs: seq<Symbol>) {
    forall x :: x in xs ==> InScope(scope, x) && x !in scope[0]
  }

  /** Boxed slots are argument slots of the own frame, each listed once. */
  predicate OwnSlots(scope: seq<seq<Symbol>>, offsets: seq<nat>) {
    && NoDup(offsets)
    && forall k :: k in offsets ==> scope != [] && 2 <= k < 2 + |scope[0]|
  }

  predicate Sound(scope: seq<seq<Symbol>>, requests: seq<Symbol>, indirect: seq<nat>) {
    Outer(scope, requests) && OwnSlots(scope, indirect)
  }

  /** Lists only grow at the end, and stay sound. */
  predicate Grown(scope: seq<seq<Symbol>>, requests: seq<Symbol>, indirect: seq<nat>, requests': seq<Symbol>,
                  indirect': seq<nat>) {
    requests <= requests' && indirect <= indirect' && Sound(scope, requests', indirect')
  }

  lemma ItemGrows(g: Globals, scope: seq<seq<Symbol>>, depth: nat, requests: seq<Symbol>, x: Symbol)
    requires Outer(scope, requests)
    ensures requests <= ItemOf(g, scope, depth, requests, x).requests
    ensures Outer(scope, ItemOf(g, scope, depth, requests, x).requests)
  {
    AddNewHas(requests, x);
  }

  lemma AddNewOnce(xs: seq<nat>, x: nat)
    requires NoDup(xs)
    ensures NoDup(AddNew(xs, x))
  {
    if x !in xs {
      AppendFacts(xs, x);
    }
  }

  lemma {:induction false} RefsGrow(g: Globals, wanted: seq<Symbol>, scope: seq<seq<Symbol>>, depth: nat,
                                    requests: seq<Symbol>, indirect: seq<nat>)
    requires Sound(scope, requests, indirect)
    ensures var r := ClosureRefs(g, wanted, scope, depth, requests, indirect);
            Grown(scope, requests, indirect, r.requests, r.indirect)
    decreases |wanted|
  {
    if wanted != [] {
      ItemGrows(g, scope, depth, requests, wanted[0]);
      var it := ItemOf(g, scope, depth, requests, wanted[0]);
      if it.word.Rel? && !it.word.r.inEnv {
        AddNewHas(indirect, it.word.r.offset - depth);
        AddNewOnce(indirect, it.word.r.offset - depth);
        RefsGrow(g, wanted[1..], scope, depth, it.requests, AddNew(indirect, it.word.r.offset - depth));
      } else {
        RefsGrow(g, wanted[1..], scope, depth, it.requests, indirect);
      }
    }
  }

  lemma {:induction false} CompileGrows(g: Globals, e: Expr, scope: seq<seq<Symbol>>, depth: nat, requests: seq<Symbol>,
                                        indirect: seq<nat>, tail: bool)
    requires Sound(scope, requests, indirect)
    ensures var r := Compile(g, e, scope, depth, requests, indirect, tail);
            Grown(scope, requests, indirect, r.requests, r.indirect)
    decreases e, 1
  {
    match e
    case Num(_) =>
    case Flag(_) =>
    case Quote(_) =>
    case Var(x) => ItemGrows(g, scope, depth, requests, x);
    case If(test, yes, no) =>
      hide Sound;
      var t := Compile(g, test, scope, depth, requests, indirect, false);
      var y := Compile(g, yes, scope, depth, t.requests, t.indirect, tail);
      CompileGrows(g, test, scope, depth, requests, indirect, false);
      CompileGrows(g, yes, scope, depth, t.requests, t.indirect, tail);
      CompileGrows(g, no, scope, depth, y.requests, y.indirect, tail);
    case Lambda(params, init, last) =>
      var i := CompileInit(g, init, [params] + scope, [], []);
      var b := Compile(g, last, [params] + scope, 0, i.requests, i.indirect, true);
      RefsGrow(g, b.requests, scope, depth, requests, indirect);
      hide Sound, ClosureRefs;
    case Call(f, args) =>
      hide Sound;
      var c := Compile(g, f, scope, depth, requests, indirect, false);
      CompileGrows(g, f, scope, depth, requests, indirect, false);
      if IsImmediate(g, e, scope) {
        CompileGrows(g, args[0], scope, depth, c.requests, c.indirect, false);
      } else {
        ArgsGrow(g, args, 0, scope, depth + FrameSize(|args|), c.requests, c.indirect);
      }
  }

  lemma {:induction false} ArgsGrow(g: Globals, args: seq<Expr>, done: nat, scope: seq<seq<Symbol>>, depth: nat,
                                    requests: seq<Symbol>, indirect: seq<nat>)
    requires Sound(scope, requests, indirect)
    ensures var r := CompileArgs(g, args, done, scope, depth, requests, indirect);
            Grown(scope, requests, indirect, r.requests, r.indirect)
    decreases args, 0
  {
    if args != [] {
      var a := Compile(g, args[0], scope, depth, requests, indirect, false);
      CompileGrows(g, args[0], scope, depth, requests, indirect, false);
      ArgsGrow(g, args[1..], done + 1, scope, depth, a.requests, a.indirect);
    }
  }

  lemma {:induction false} InitGrows(g: Globals, init: seq<Expr>, scope: seq<seq<Symbol>>, requests: seq<Symbol>,
                                     indirect: seq<nat>)
    requires Sound(scope, requests, indirect)
    ensures var r := CompileInit(g, init, scope, requests, indirect);
            Grown(scope, requests, indirect, r.requests, r.indirect)
    decreases init, 0
  {
    if init != [] {
      var a := Compile(g, init[0], scope, 0, requests, indirect, false);
      CompileGrows(g, init[0], scope, 0, requests, indirect, false);
      InitGrows(g, init[1..], scope, a.requests, a.indirect);
    }
  }

  /** A lambda asks only for variables its surroundings can supply. */
  lemma LambdaRequests(g: Globals, params: seq<Symbol>, init: seq<Expr>, last: Expr, scope: seq<seq<Symbol>>)
    ensures var (code, wanted) := CompileLambda(g, params, init, last, scope);
            && code.vars == params
            && OwnSlots([params] + scope, code.indirect)
            && forall x :: x in wanted ==> InScope(scope, x)
  {
    var inner := [params] + scope;
    var i := CompileInit(g, init, inner, [], []);
    InitGrows(g, init, inner, [], []);
    CompileGrows(g, last, inner, 0, i.requests, i.indirect, true);
    var (code, wanted) := CompileLambda(g, params, init, last, scope);
    forall x | x in wanted
      ensures InScope(scope, x)
    {
      var k := Binder(inner, x);
      assert inner[k] == scope[k - 1];
    }
  }
}
