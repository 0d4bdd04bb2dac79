/** The simulation proof: by induction on fuel and on expressions, every piece of compiled
    code takes the machine where the evaluator says. */
module SchemeSimulation {
  import opened Lists
  import opened Wrappers
  import opened Scheme
  import opened SchemeMachine
  import opened SchemeCode
  import opened SchemeLists
  import opened SchemeRelation

  /** Where code runs: the surroundings of an expression inside one lambda. */
  datatype Site = Site(g: Globals, env: seq<Frame>, depth: nat, wanted: seq<Symbol>, boxed: seq<nat>) {
    function Scope(): seq<seq<Symbol>> { ScopeOf(env) }

    function Compiled(e: Expr, requests: seq<Symbol>, indirect: seq<nat>, tail: bool): Gen {
      Compile(g, e, Scope(), depth, requests, indirect, tail)
    }

    /** The machine stands at the code r and everything that code refers to is in place. */
    predicate At(m: Machine, r: Gen) {
      && m.Running? && Situated(g, m, env, depth, wanted, boxed)
      && Covered(r, wanted, boxed)
      && CodeAt(m, r.words)
    }

    predicate Starts(requests: seq<Symbol>, indirect: seq<nat>) {
      Sound(Scope(), requests, indirect)
    }
  }

  lemma TwoWords(defs: map<Symbol, Cell>, m: Machine, op: Opcode, w: Word) returns (n: nat)
    requires CodeAt(m, [Op(op), w]) && !op.CALL? && !op.TAIL? && !op.RET?
    ensures Steps(defs, m, n) == StepOperand(defs, m, op, w)
  {
    OperandStep(defs, m, op, w);
    n := 1;
  }

  lemma RunLoad(defs: map<Symbol, Cell>, m: Machine, v: Cell)
    requires CodeAt(m, [Op(LOAD), Lit(v)])
    ensures Steps(defs, m, 1) == m.(d1 := v, ip := m.ip + 2)
  {
    OperandStep(defs, m, LOAD, Lit(v));
  }

  lemma RunTemplate(defs: map<Symbol, Cell>, m: Machine, code: Code, refs: seq<Ref>)
    requires CodeAt(m, [Op(CREATE_LAMBDA), Template(code, refs)]) && RefsValid(refs, m.stack, m.ep)
    ensures Steps(defs, m, 1) == m.(d1 := LambdaC(code, CreateClosure(refs, m.stack, m.ep)), ip := m.ip + 2)
  {
    OperandStep(defs, m, CREATE_LAMBDA, Template(code, refs));
  }

  // ----- Variables and lambdas -----

  lemma LookupSkips(env: seq<Frame>, x: Symbol)
    requires env != [] && InScope(ScopeOf(env), x) && x !in env[0].Names()
    ensures InScope(ScopeOf(env[1..]), x) && Lookup(env, x) == Lookup(env[1..], x)
  {
    assert ScopeOf(env)[1..] == ScopeOf(env[1..]);
    var k := Binder(ScopeOf(env), x);
    assert x in ScopeOf(env[1..])[k - 1];
  }

  lemma OwnSlot(s: Site, m: Machine, x: Symbol)
    requires Situated(s.g, m, s.env, s.depth, s.wanted, s.boxed)
    requires s.env != [] && x in s.env[0].Names()
    ensures var k := 2 + IndexOf(s.env[0].Names(), x);
            && s.depth + k < |m.stack|
            && m.stack[s.depth + k] == Slot(Form(s.g, Lookup(s.env, x)), k in s.boxed)
  {
    hide Form;
    var k := 2 + IndexOf(s.env[0].Names(), x);
    assert m.stack[s.depth..][k] == Slot(Form(s.g, s.env[0].bindings[k - 2].val), k in s.boxed);
  }

  lemma CapturedSlot(s: Site, m: Machine, x: Symbol, j: nat)
    requires Situated(s.g, m, s.env, s.depth, s.wanted, s.boxed)
    requires s.env != [] && InScope(s.Scope(), x) && x !in s.env[0].Names()
    requires j < |s.wanted| && s.wanted[j] == x
    ensures j < |m.ep| && m.ep[j] == Box(Form(s.g, Lookup(s.env, x)))
  {
    LookupSkips(s.env, x);
    hide Form, OwnFrame, InScope, Lookup;
  }

  /** The word addresses a slot that holds the value of the variable, boxed if anybody captures it. */
  predicate Addresses(s: Site, m: Machine, w: Word, x: Symbol)
    requires m.Running? && InScope(s.Scope(), x)
  {
    && w.Rel? && RefsValid([w.r], m.stack, m.ep)
    && Fetch([w.r][0], m.stack, m.ep) ==
       Slot(Form(s.g, Lookup(s.env, x)), w.r.inEnv || w.r.offset - s.depth in s.boxed)
  }

  lemma OwnItem(s: Site, m: Machine, k: nat, x: Symbol)
    requires m.Running? && InScope(s.Scope(), x) && s.depth + k < |m.stack|
    requires m.stack[s.depth + k] == Slot(Form(s.g, Lookup(s.env, x)), k in s.boxed)
    ensures Addresses(s, m, Rel(Ref(s.depth + k, false)), x)
  {
    hide Form, Lookup, InScope;
  }

  lemma CapturedItem(s: Site, m: Machine, j: nat, x: Symbol)
    requires m.Running? && InScope(s.Scope(), x) && j < |m.ep| && m.ep[j] == Box(Form(s.g, Lookup(s.env, x)))
    ensures Addresses(s, m, Rel(Ref(j, true)), x)
  {
    hide Form, Lookup, InScope;
  }

  /** What a symbol is addressed by: a slot of the own frame, or one of the environment. */
  lemma ItemWord(g: Globals, scope: seq<seq<Symbol>>, depth: nat, requests: seq<Symbol>, x: Symbol)
    requires InScope(scope, x)
    ensures var it := ItemOf(g, scope, depth, requests, x);
            if x in scope[0] then it.word == Rel(Ref(depth + 2 + IndexOf(scope[0], x), false))
            else x in AddNew(requests, x) && it.requests == AddNew(requests, x)
                 && it.word == Rel(Ref(Position(requests, x), true)) && Position(requests, x) < |it.requests|
                 && it.requests[Position(requests, x)] == x
  {
    AddNewHas(requests, x);
    hide InScope, IndexOf;
  }

  lemma FetchItem(s: Site, m: Machine, requests: seq<Symbol>, x: Symbol)
    requires Situated(s.g, m, s.env, s.depth, s.wanted, s.boxed)
    requires InScope(s.Scope(), x)
    requires ItemOf(s.g, s.Scope(), s.depth, requests, x).requests <= s.wanted
    ensures m.Running? && Addresses(s, m, ItemOf(s.g, s.Scope(), s.depth, requests, x).word, x)
  {
    assert m.Running? && s.env != [] && s.Scope()[0] == s.env[0].Names();
    hide Form, Situated, Lookup, IndexOf, Position, AddNew, InScope, ItemOf, Addresses;
    ItemWord(s.g, s.Scope(), s.depth, requests, x);
    if x in s.env[0].Names() {
      OwnSlot(s, m, x);
      OwnItem(s, m, 2 + IndexOf(s.env[0].Names(), x), x);
    } else {
      var j := Position(requests, x);
      assert s.wanted[j] == x;
      CapturedSlot(s, m, x, j);
      CapturedItem(s, m, j, x);
    }
  }

  lemma SimVar(s: Site, m: Machine, x: Symbol, requests: seq<Symbol>, indirect: seq<nat>, fuel: nat)
    returns (n: nat)
    requires s.At(m, s.Compiled(Var(x), requests, indirect, false))
    ensures Agrees(s.g, Eval(s.g, Var(x), s.env, fuel), n >= fuel, Steps(DefsOf(s.g), m, n), m.(ip := m.ip + 2))
  {
    var w := ItemOf(s.g, s.Scope(), s.depth, requests, x).word;
    n := TwoWords(DefsOf(s.g), m, LoadOp(w), w);
    if InScope(s.Scope(), x) {
      FetchItem(s, m, requests, x);
    }
  }

  /** One more reference: what it adds to the lists, later references keep. */
  lemma RefsCons(g: Globals, xs: seq<Symbol>, scope: seq<seq<Symbol>>, depth: nat, requests: seq<Symbol>,
                 indirect: seq<nat>) returns (ref: Ref, boxed: seq<nat>)
    requires xs != [] && InScope(scope, xs[0]) && Sound(scope, requests, indirect)
    ensures var it := ItemOf(g, scope, depth, requests, xs[0]);
            var rest := ClosureRefs(g, xs[1..], scope, depth, it.requests, boxed);
            && it.word == Rel(ref) && Sound(scope, it.requests, boxed)
            && it.requests <= rest.requests
            && (!ref.inEnv ==> ref.offset >= depth && ref.offset - depth in rest.indirect)
            && ClosureRefs(g, xs, scope, depth, requests, indirect) ==
               Refs([ref] + rest.refs, rest.requests, rest.indirect)
  {
    var it := ItemOf(g, scope, depth, requests, xs[0]);
    ref := it.word.r;
    boxed := if !ref.inEnv then AddNew(indirect, ref.offset - depth) else indirect;
    ItemGrows(g, scope, depth, requests, xs[0]);
    if !ref.inEnv {
      AddNewHas(indirect, ref.offset - depth);
      AddNewOnce(indirect, ref.offset - depth);
    }
    RefsGrow(g, xs[1..], scope, depth, it.requests, boxed);
    ClosureRefsCons(g, xs, scope, depth, requests, indirect);
    hide ClosureRefs, ItemOf;
  }

  lemma ClosureRefsCons(g: Globals, xs: seq<Symbol>, scope: seq<seq<Symbol>>, depth: nat, requests: seq<Symbol>,
                        indirect: seq<nat>)
    requires xs != [] && InScope(scope, xs[0])
    ensures var it := ItemOf(g, scope, depth, requests, xs[0]);
            && it.word.Rel? && (!it.word.r.inEnv ==> it.word.r.offset >= depth)
            && var boxed := if it.word.r.inEnv then indirect else AddNew(indirect, it.word.r.offset - depth);
               var rest := ClosureRefs(g, xs[1..], scope, depth, it.requests, boxed);
               ClosureRefs(g, xs, scope, depth, requests, indirect) ==
               Refs([it.word.r] + rest.refs, rest.requests, rest.indirect)
  {
    hide InScope, AddNew;
  }

  predicate FetchesBoxes(s: Site, m: Machine, xs: seq<Symbol>, refs: seq<Ref>)
    requires m.Running?
  {
    && |refs| == |xs| && RefsValid(refs, m.stack, m.ep)
    && forall i :: 0 <= i < |xs| ==>
         InScope(s.Scope(), xs[i]) && Fetch(refs[i], m.stack, m.ep) == Box(Form(s.g, Lookup(s.env, xs[i])))
  }

  lemma FetchesCons(s: Site, m: Machine, xs: seq<Symbol>, ref: Ref, refs: seq<Ref>)
    requires m.Running? && xs != [] && FetchesBoxes(s, m, xs[1..], refs)
    requires InScope(s.Scope(), xs[0]) && RefsValid([ref], m.stack, m.ep)
    requires Fetch([ref][0], m.stack, m.ep) == Box(Form(s.g, Lookup(s.env, xs[0])))
    ensures FetchesBoxes(s, m, xs, [ref] + refs)
  {
    hide Form, Lookup, InScope;
    var all := [ref] + refs;
    forall i | 0 <= i < |xs|
      ensures all[i].offset < if all[i].inEnv then |m.ep| else |m.stack|
      ensures InScope(s.Scope(), xs[i]) && Fetch(all[i], m.stack, m.ep) == Box(Form(s.g, Lookup(s.env, xs[i])))
    {
      if i > 0 {
        assert all[i] == refs[i - 1] && xs[i] == xs[1..][i - 1];
      } else {
        assert all[0] == [ref][0];
      }
    }
  }

  /** The references of a template fetch exactly the boxes of the wanted variables. */
  lemma {:induction false} FetchRefs(s: Site, m: Machine, xs: seq<Symbol>, requests: seq<Symbol>, indirect: seq<nat>)
    requires Situated(s.g, m, s.env, s.depth, s.wanted, s.boxed) && s.Starts(requests, indirect)
    requires forall x :: x in xs ==> InScope(s.Scope(), x)
    requires var r := ClosureRefs(s.g, xs, s.Scope(), s.depth, requests, indirect);
             r.requests <= s.wanted && forall k :: k in r.indirect ==> k in s.boxed
    ensures m.Running?
    ensures FetchesBoxes(s, m, xs, ClosureRefs(s.g, xs, s.Scope(), s.depth, requests, indirect).refs)
    decreases |xs|
  {
    hide Form, Lookup, ItemOf, ClosureRefs, Sound, Situated, InScope, FetchesBoxes;
    RunningThere(s, m);
    if xs == [] {
      FetchesNone(s, m, requests, indirect);
    } else {
      var ref, boxed := RefsCons(s.g, xs, s.Scope(), s.depth, requests, indirect);
      var it := ItemOf(s.g, s.Scope(), s.depth, requests, xs[0]);
      var rest := ClosureRefs(s.g, xs[1..], s.Scope(), s.depth, it.requests, boxed);
      FetchRefs(s, m, xs[1..], it.requests, boxed);
      PrefixTrans(it.requests, rest.requests, s.wanted);
      FetchBox(s, m, requests, xs[0], ref);
      FetchesCons(s, m, xs, ref, rest.refs);
    }
  }

  lemma PrefixTrans<T>(a: seq<T>, b: seq<T>, c: seq<T>)
    requires a <= b <= c
    ensures a <= c
  {
  }

  lemma FetchBox(s: Site, m: Machine, requests: seq<Symbol>, x: Symbol, ref: Ref)
    requires Situated(s.g, m, s.env, s.depth, s.wanted, s.boxed) && InScope(s.Scope(), x)
    requires ItemOf(s.g, s.Scope(), s.depth, requests, x).requests <= s.wanted
    requires ItemOf(s.g, s.Scope(), s.depth, requests, x).word == Rel(ref)
    requires ref.inEnv || (ref.offset >= s.depth && ref.offset - s.depth in s.boxed)
    ensures m.Running? && RefsValid([ref], m.stack, m.ep)
    ensures Fetch([ref][0], m.stack, m.ep) == Box(Form(s.g, Lookup(s.env, x)))
  {
    RunningThere(s, m);
    hide Form, Lookup, ItemOf, Situated, InScope;
    FetchItem(s, m, requests, x);
  }

  lemma FetchesNone(s: Site, m: Machine, requests: seq<Symbol>, indirect: seq<nat>)
    requires m.Running?
    ensures FetchesBoxes(s, m, [], ClosureRefs(s.g, [], s.Scope(), s.depth, requests, indirect).refs)
  {
  }

  lemma RunningThere(s: Site, m: Machine)
    requires Situated(s.g, m, s.env, s.depth, s.wanted, s.boxed)
    ensures m.Running?
  {
  }

  lemma ClosureBuilt(s: Site, m: Machine, e: Expr, refs: seq<Ref>)
    requires e.Lambda? && m.Running?
    requires var (code, wanted) := CompileLambda(s.g, e.params, e.init, e.last, s.Scope());
             wanted != [] && FetchesBoxes(s, m, wanted, refs)
    ensures var (code, wanted) := CompileLambda(s.g, e.params, e.init, e.last, s.Scope());
            RefsValid(refs, m.stack, m.ep) &&
            Form(s.g, Closure(e.params, e.init, e.last, s.env)) == LambdaC(code, CreateClosure(refs, m.stack, m.ep))
  {
    FormOfClosure(s.g, e.params, e.init, e.last, s.env);
    hide Form, CompileLambda, Lookup, InScope;
    var c := Form(s.g, Closure(e.params, e.init, e.last, s.env));
    assert c.env == CreateClosure(refs, m.stack, m.ep);
  }

  lemma SimLambda(s: Site, m: Machine, e: Expr, requests: seq<Symbol>, indirect: seq<nat>, fuel: nat)
    returns (n: nat)
    requires e.Lambda? && s.Starts(requests, indirect)
    requires s.At(m, s.Compiled(e, requests, indirect, false))
    ensures Agrees(s.g, Eval(s.g, e, s.env, fuel), n >= fuel, Steps(DefsOf(s.g), m, n), m.(ip := m.ip + 2))
  {
    assert Eval(s.g, e, s.env, fuel) == Val(Closure(e.params, e.init, e.last, s.env));
    hide Eval, Compile, CompileLambda, Form, ClosureRefs, Steps, Situated, Sound, InScope, DefsOf, CreateClosure,
      FetchesBoxes;
    LambdaCode(s, e, requests, indirect);
    var (code, wanted) := CompileLambda(s.g, e.params, e.init, e.last, s.Scope());
    if wanted == [] {
      RunLoad(DefsOf(s.g), m, CodeC(code));
      FormOfClosure(s.g, e.params, e.init, e.last, s.env);
    } else {
      LambdaRequests(s.g, e.params, e.init, e.last, s.Scope());
      var c := ClosureRefs(s.g, wanted, s.Scope(), s.depth, requests, indirect);
      FetchRefs(s, m, wanted, requests, indirect);
      ClosureBuilt(s, m, e, c.refs);
      RunTemplate(DefsOf(s.g), m, code, c.refs);
    }
    n := 1;
  }

  lemma LambdaCode(s: Site, e: Expr, requests: seq<Symbol>, indirect: seq<nat>)
    requires e.Lambda?
    ensures var (code, wanted) := CompileLambda(s.g, e.params, e.init, e.last, s.Scope());
            var c := ClosureRefs(s.g, wanted, s.Scope(), s.depth, requests, indirect);
            s.Compiled(e, requests, indirect, false) ==
              if wanted == [] then Gen([Op(LOAD), Lit(CodeC(code))], requests, indirect)
              else Gen([Op(CREATE_LAMBDA), Template(code, c.refs)], c.requests, c.indirect)
  {
  }

  // ----- Building frames -----

  lemma RunFrame(defs: map<Symbol, Cell>, m: Machine, argc: nat)
    requires CodeAt(m, [Op(CREATE_FRAME), Long(argc)])
    ensures Steps(defs, m, 1) == m.(stack := NewFrame(m.d1, argc) + m.stack, ip := m.ip + 2)
  {
    OperandStep(defs, m, CREATE_FRAME, Long(argc));
  }

  function NewFrame(callee: Cell, argc: nat): (f: seq<Cell>)
    ensures |f| == FrameSize(argc) && f[0] == callee && f[1] == IntC(argc)
  {
    [callee, IntC(argc)] + seq(argc, _ => IntC(0))
  }

  lemma RunStore(defs: map<Symbol, Cell>, m: Machine, k: nat)
    requires CodeAt(m, [Op(STORE), Long(k)]) && k < |m.stack|
    ensures Steps(defs, m, 1) == m.(stack := m.stack[k := m.d1], ip := m.ip + 2)
  {
    OperandStep(defs, m, STORE, Long(k));
  }

  /** The stack with cs written into it from slot k on. */
  function Fill(stack: seq<Cell>, k: nat, cs: seq<Cell>): seq<Cell>
    requires k + |cs| <= |stack|
  {
    stack[..k] + cs + stack[k + |cs|..]
  }

  lemma FillOne(stack: seq<Cell>, k: nat, c: Cell, cs: seq<Cell>)
    requires k + 1 + |cs| <= |stack|
    ensures Fill(stack[k := c], k + 1, cs) == Fill(stack, k, [c] + cs)
  {
  }

  lemma StoreKeeps(s: Site, m: Machine, k: nat, c: Cell)
    requires Situated(s.g, m, s.env, s.depth, s.wanted, s.boxed) && k < s.depth <= |m.stack|
    ensures Situated(s.g, m.(stack := m.stack[k := c]), s.env, s.depth, s.wanted, s.boxed)
  {
    hide Form, Carried, OwnFrame;
    assert m.stack[k := c][s.depth..] == m.stack[s.depth..];
  }

  lemma PushKeeps(s: Site, m: Machine, top: seq<Cell>)
    requires Situated(s.g, m, s.env, s.depth, s.wanted, s.boxed)
    ensures Situated(s.g, m.(stack := top + m.stack), s.env, |top| + s.depth, s.wanted, s.boxed)
  {
    hide Form, Carried, OwnFrame;
    assert (top + m.stack)[|top| + s.depth..] == m.stack[s.depth..];
  }

  /** After the arguments: their values in the frame, or a throw where one errs. */
  predicate ArgsAgree(g: Globals, o: Outcomes, late: bool, m': Machine, m: Machine, len: nat, slot: nat)
    requires m.Running?
  {
    match o
    case Vals(vs) =>
      && slot + |vs| <= |m.stack| && m'.Running?
      && m' == m.(d1 := m'.d1, ip := m.ip + len, stack := Fill(m.stack, slot, Forms(g, vs)))
    case ErrS => m' == Thrown
    case TimeoutS => m'.Running? && late
  }

  // ----- Returning -----

  function ReturnTo(m: Machine): Machine
    requires m.Running? && m.rp != [] && HasFrame(m.stack)
  {
    Running(m.d1, m.rp[0].code, m.rp[0].ip + 1, Pop(m.stack), m.rp[1..], m.rp[0].ep)
  }

  /** From here only branches forward separate the machine from a return. */
  predicate LeadsToRet(words: seq<Word>, q: nat)
    decreases |words| - q
  {
    q < |words| &&
    (words[q] == Op(RET) ||
     (q + 1 < |words| && words[q] == Op(BRA) && words[q + 1].Long? && words[q + 1].n > 0
      && LeadsToRet(words, q + words[q + 1].n)))
  }

  lemma {:induction false} ReachRet(defs: map<Symbol, Cell>, m: Machine) returns (n: nat)
    requires m.Running? && LeadsToRet(m.code.words, m.ip) && m.rp != [] && HasFrame(m.stack)
    ensures Steps(defs, m, n) == ReturnTo(m)
    decreases if m.Running? then |m.code.words| - m.ip else 0
  {
    var w := m.code.words[m.ip];
    if w == Op(RET) {
      SingleStep(defs, m, RET);
      n := 1;
    } else {
      var m1 := m.(ip := m.ip + m.code.words[m.ip + 1].n);
      OperandStep(defs, m, BRA, m.code.words[m.ip + 1]);
      var k := ReachRet(defs, m1);
      StepsAdd(defs, m, 1, k);
      n := 1 + k;
    }
  }

  // ----- Entering a closure -----

  /** The top frame of the stack, as the caller has built it. */
  predicate CalleeFrame(g: Globals, stack: seq<Cell>, fv: Value, vs: seq<Value>, rest: seq<Cell>) {
    stack == [Form(g, fv), IntC(|vs|)] + Forms(g, vs) + rest
  }

  lemma CalleeFrameParts(g: Globals, stack: seq<Cell>, fv: Value, vs: seq<Value>, rest: seq<Cell>)
    requires CalleeFrame(g, stack, fv, vs, rest)
    ensures HasFrame(stack) && stack[0] == Form(g, fv) && stack[1] == IntC(|vs|)
    ensures Args(stack) == Forms(g, vs) && Pop(stack) == rest
    ensures forall k :: 2 <= k < FrameSize(|vs|) ==> stack[k] == Form(g, vs[k - 2])
  {
    hide Form;
  }

  lemma BoxedFrame(g: Globals, stack: seq<Cell>, params: seq<Symbol>, fv: Value, vs: seq<Value>, rest: seq<Cell>,
                   boxed: seq<nat>)
    requires CalleeFrame(g, stack, fv, vs, rest) && |vs| == |params|
    requires NoDup(boxed) && forall k :: k in boxed ==> 2 <= k < 2 + |params|
    ensures forall i :: 0 <= i < |boxed| ==> boxed[i] < |stack|
    ensures var stack' := ToIndirect(stack, boxed);
            OwnFrame(g, stack', Bind(params, vs), boxed) && HasFrame(stack') && Pop(stack') == rest
  {
    CalleeFrameParts(g, stack, fv, vs, rest);
    assert forall i :: 0 <= i < |boxed| ==> boxed[i] in boxed;
    hide Form, CalleeFrame, ToIndirect;
    BoxedSlots(stack, boxed);
    BoxedRest(stack, boxed, |vs|);
    var stack', f := ToIndirect(stack, boxed), Bind(params, vs);
    forall k | 2 <= k < FrameSize(|vs|)
      ensures stack'[k] == Slot(Form(g, f.bindings[k - 2].val), k in boxed)
    {
      assert f.bindings[k - 2].val == vs[k - 2];
    }
  }

  lemma BoxedSlots(stack: seq<Cell>, boxed: seq<nat>)
    requires NoDup(boxed) && forall i :: 0 <= i < |boxed| ==> boxed[i] < |stack|
    ensures forall k :: 0 <= k < |stack| ==> ToIndirect(stack, boxed)[k] == Slot(stack[k], k in boxed)
  {
    forall k | 0 <= k < |stack|
      ensures ToIndirect(stack, boxed)[k] == Slot(stack[k], k in boxed)
    {
      ToIndirectAt(stack, boxed, k);
    }
  }

  lemma BoxedRest(stack: seq<Cell>, boxed: seq<nat>, argc: nat)
    requires NoDup(boxed) && FrameSize(argc) <= |stack|
    requires forall k :: k in boxed ==> 2 <= k < FrameSize(argc)
    requires forall i :: 0 <= i < |boxed| ==> boxed[i] < |stack|
    ensures ToIndirect(stack, boxed)[FrameSize(argc)..] == stack[FrameSize(argc)..]
  {
    BoxedSlots(stack, boxed);
  }

  /** On entry the machine is situated in the closure's environment plus the arguments. */
  lemma Entered(g: Globals, c: Value, vs: seq<Value>, m: Machine, rest: seq<Cell>, ep: seq<Cell>)
    requires c.Closure? && |vs| == |c.params|
    requires m.Running? && CalleeFrame(g, m.stack, c, vs, rest)
    requires Carried(g, ep, c.env, CompileLambda(g, c.params, c.init, c.last, ScopeOf(c.env)).1)
    ensures HasFrame(m.stack)
    ensures var (code, wanted) := CompileLambda(g, c.params, c.init, c.last, ScopeOf(c.env));
            var m' := Enter(m, code, ep);
            && m'.Running? && m'.code == code && m'.ip == 0 && m'.rp == m.rp
            && Situated(g, m', [Bind(c.params, vs)] + c.env, 0, wanted, code.indirect)
            && HasFrame(m'.stack) && Pop(m'.stack) == rest
  {
    CalleeFrameParts(g, m.stack, c, vs, rest);
    LambdaRequests(g, c.params, c.init, c.last, ScopeOf(c.env));
    hide Form, CompileLambda, CalleeFrame, Carried, OwnFrame;
    var (code, wanted) := CompileLambda(g, c.params, c.init, c.last, ScopeOf(c.env));
    BoxedFrame(g, m.stack, c.params, c, vs, rest, code.indirect);
    assert ([Bind(c.params, vs)] + c.env)[1..] == c.env;
    assert forall st: seq<Cell> :: st[0..] == st;
  }

  // ----- Layout of compound code -----

  lemma AtAnyD1(s: Site, m: Machine, r: Gen, c: Cell)
    requires s.At(m, r)
    ensures s.At(m.(d1 := c), r)
  {
  }

  lemma AtNext(s: Site, m: Machine, r: Gen, next: Gen, len: nat, c: Cell)
    requires s.At(m, r) && Covered(next, s.wanted, s.boxed) && CodeAt(m.(ip := m.ip + len), next.words)
    ensures s.At(m.(d1 := c, ip := m.ip + len), next)
  {
  }

  lemma CoveredPrefix(a: Gen, b: Gen, wanted: seq<Symbol>, boxed: seq<nat>)
    requires a.requests <= b.requests && a.indirect <= b.indirect && Covered(b, wanted, boxed)
    ensures Covered(a, wanted, boxed)
  {
  }

  /** The three parts of a conditional and the branches between them. */
  lemma IfLayout(s: Site, m: Machine, e: Expr, requests: seq<Symbol>, indirect: seq<nat>, tail: bool)
    returns (t: Gen, y: Gen, n: Gen)
    requires e.If? && s.Starts(requests, indirect) && s.At(m, s.Compiled(e, requests, indirect, tail))
    ensures t == s.Compiled(e.test, requests, indirect, false)
    ensures y == s.Compiled(e.yes, t.requests, t.indirect, tail)
    ensures n == s.Compiled(e.no, y.requests, y.indirect, tail)
    ensures s.Starts(t.requests, t.indirect) && s.Starts(y.requests, y.indirect)
    ensures |s.Compiled(e, requests, indirect, tail).words| == |t.words| + |y.words| + |n.words| + 4
    ensures s.At(m, t)
    ensures CodeAt(m.(ip := m.ip + |t.words|), [Op(BF), Long(|y.words| + 4)])
    ensures s.At(m.(ip := m.ip + |t.words| + 2), y)
    ensures CodeAt(m.(ip := m.ip + |t.words| + 2 + |y.words|), [Op(BRA), Long(|n.words| + 2)])
    ensures s.At(m.(ip := m.ip + |t.words| + |y.words| + 4), n)
  {
    hide Compile, Situated, Sound, CodeAt, Covered;
    t, y, n := IfParts(s, e, requests, indirect, tail);
    var all := s.Compiled(e, requests, indirect, tail);
    IfWords(m, all.words, t.words, y.words, n.words);
    CoveredPrefix(n, all, s.wanted, s.boxed);
    CoveredPrefix(y, n, s.wanted, s.boxed);
    CoveredPrefix(t, y, s.wanted, s.boxed);
    AtNext(s, m, all, t, 0, m.d1);
    AtNext(s, m, all, y, |t.words| + 2, m.d1);
    AtNext(s, m, all, n, |t.words| + |y.words| + 4, m.d1);
  }

  lemma IfParts(s: Site, e: Expr, requests: seq<Symbol>, indirect: seq<nat>, tail: bool)
    returns (t: Gen, y: Gen, n: Gen)
    requires e.If? && s.Starts(requests, indirect)
    ensures t == s.Compiled(e.test, requests, indirect, false)
    ensures y == s.Compiled(e.yes, t.requests, t.indirect, tail)
    ensures n == s.Compiled(e.no, y.requests, y.indirect, tail)
    ensures s.Starts(t.requests, t.indirect) && s.Starts(y.requests, y.indirect)
    ensures t.requests <= y.requests <= n.requests && t.indirect <= y.indirect <= n.indirect
    ensures s.Compiled(e, requests, indirect, tail) ==
            Gen(t.words + [Op(BF), Long(|y.words| + 4)] + y.words + [Op(BRA), Long(|n.words| + 2)] + n.words,
                n.requests, n.indirect)
  {
    t := s.Compiled(e.test, requests, indirect, false);
    y := s.Compiled(e.yes, t.requests, t.indirect, tail);
    n := s.Compiled(e.no, y.requests, y.indirect, tail);
    CompileGrows(s.g, e.test, s.Scope(), s.depth, requests, indirect, false);
    CompileGrows(s.g, e.yes, s.Scope(), s.depth, t.requests, t.indirect, tail);
    CompileGrows(s.g, e.no, s.Scope(), s.depth, y.requests, y.indirect, tail);
  }

  lemma IfWords(m: Machine, all: seq<Word>, t: seq<Word>, y: seq<Word>, n: seq<Word>)
    requires all == t + [Op(BF), Long(|y| + 4)] + y + [Op(BRA), Long(|n| + 2)] + n && CodeAt(m, all)
    ensures CodeAt(m, t) && CodeAt(m.(ip := m.ip + |t|), [Op(BF), Long(|y| + 4)])
    ensures CodeAt(m.(ip := m.ip + |t| + 2), y)
    ensures CodeAt(m.(ip := m.ip + |t| + 2 + |y|), [Op(BRA), Long(|n| + 2)])
    ensures CodeAt(m.(ip := m.ip + |t| + |y| + 4), n)
  {
    CodeSplit(m, t + [Op(BF), Long(|y| + 4)] + y + [Op(BRA), Long(|n| + 2)], n);
    CodeSplit(m, t + [Op(BF), Long(|y| + 4)] + y, [Op(BRA), Long(|n| + 2)]);
    CodeSplit(m, t + [Op(BF), Long(|y| + 4)], y);
    CodeSplit(m, t, [Op(BF), Long(|y| + 4)]);
  }

  /** The parts of a call: procedure, new frame, arguments, transfer. */
  lemma CallLayout(s: Site, m: Machine, e: Expr, requests: seq<Symbol>, indirect: seq<nat>, tail: bool)
    returns (c: Gen, a: Gen, inner: Site)
    requires e.Call? && !IsImmediate(s.g, e, s.Scope())
    requires s.Starts(requests, indirect) && s.At(m, s.Compiled(e, requests, indirect, tail))
    ensures c == s.Compiled(e.f, requests, indirect, false) && s.Starts(c.requests, c.indirect)
    ensures inner == s.(depth := s.depth + FrameSize(|e.args|))
    ensures a == CompileArgs(s.g, e.args, 0, s.Scope(), inner.depth, c.requests, c.indirect)
    ensures |s.Compiled(e, requests, indirect, tail).words| == |c.words| + |a.words| + 3
    ensures s.At(m, c) && Covered(a, s.wanted, s.boxed)
    ensures CodeAt(m.(ip := m.ip + |c.words|), [Op(CREATE_FRAME), Long(|e.args|)])
    ensures CodeAt(m.(ip := m.ip + |c.words| + 2), a.words)
    ensures CodeAt(m.(ip := m.ip + |c.words| + 2 + |a.words|), [Op(if tail then TAIL else CALL)])
  {
    hide Compile, CompileArgs, Situated, Sound, CodeAt, IsImmediate, Covered;
    c, a, inner := CallParts(s, e, requests, indirect, tail);
    var all := s.Compiled(e, requests, indirect, tail);
    CoveredPrefix(a, all, s.wanted, s.boxed);
    CoveredPrefix(c, a, s.wanted, s.boxed);
    var f, last := [Op(CREATE_FRAME), Long(|e.args|)], [Op(if tail then TAIL else CALL)];
    CodeSplit(m, c.words + f + a.words, last);
    CodeSplit(m, c.words + f, a.words);
    CodeSplit(m, c.words, f);
    AtNext(s, m, all, c, 0, m.d1);
  }

  lemma CallParts(s: Site, e: Expr, requests: seq<Symbol>, indirect: seq<nat>, tail: bool)
    returns (c: Gen, a: Gen, inner: Site)
    requires e.Call? && !IsImmediate(s.g, e, s.Scope()) && s.Starts(requests, indirect)
    ensures c == s.Compiled(e.f, requests, indirect, false) && s.Starts(c.requests, c.indirect)
    ensures inner == s.(depth := s.depth + FrameSize(|e.args|))
    ensures a == CompileArgs(s.g, e.args, 0, s.Scope(), inner.depth, c.requests, c.indirect)
    ensures c.requests <= a.requests && c.indirect <= a.indirect
    ensures s.Compiled(e, requests, indirect, tail) ==
            Gen(c.words + [Op(CREATE_FRAME), Long(|e.args|)] + a.words + [Op(if tail then TAIL else CALL)],
                a.requests, a.indirect)
  {
    c := s.Compiled(e.f, requests, indirect, false);
    inner := s.(depth := s.depth + FrameSize(|e.args|));
    a := CompileArgs(s.g, e.args, 0, s.Scope(), inner.depth, c.requests, c.indirect);
    CompileGrows(s.g, e.f, s.Scope(), s.depth, requests, indirect, false);
    ArgsGrow(s.g, e.args, 0, s.Scope(), inner.depth, c.requests, c.indirect);
  }

  /** The first argument, its store, and the remaining arguments. */
  lemma ArgsLayout(s: Site, m: Machine, args: seq<Expr>, done: nat, requests: seq<Symbol>, indirect: seq<nat>)
    returns (a: Gen, rest: Gen)
    requires args != [] && s.Starts(requests, indirect)
    requires s.At(m, CompileArgs(s.g, args, done, s.Scope(), s.depth, requests, indirect))
    ensures a == s.Compiled(args[0], requests, indirect, false) && s.Starts(a.requests, a.indirect)
    ensures rest == CompileArgs(s.g, args[1..], done + 1, s.Scope(), s.depth, a.requests, a.indirect)
    ensures |CompileArgs(s.g, args, done, s.Scope(), s.depth, requests, indirect).words| ==
            |a.words| + 2 + |rest.words|
    ensures s.At(m, a) && Covered(rest, s.wanted, s.boxed)
    ensures CodeAt(m.(ip := m.ip + |a.words|), [Op(STORE), Long(2 + done)])
    ensures CodeAt(m.(ip := m.ip + |a.words| + 2), rest.words)
  {
    a := s.Compiled(args[0], requests, indirect, false);
    rest := CompileArgs(s.g, args[1..], done + 1, s.Scope(), s.depth, a.requests, a.indirect);
    CompileGrows(s.g, args[0], s.Scope(), s.depth, requests, indirect, false);
    ArgsGrow(s.g, args[1..], done + 1, s.Scope(), s.depth, a.requests, a.indirect);
    var st := [Op(STORE), Long(2 + done)];
    assert CompileArgs(s.g, args, done, s.Scope(), s.depth, requests, indirect).words == a.words + st + rest.words;
    CodeSplit(m, a.words + st, rest.words);
    CodeSplit(m, a.words, st);
  }

  lemma ImmediateLayout(s: Site, m: Machine, e: Expr, requests: seq<Symbol>, indirect: seq<nat>, tail: bool)
    returns (c: Gen, a: Gen)
    requires IsImmediate(s.g, e, s.Scope())
    requires s.Starts(requests, indirect) && s.At(m, s.Compiled(e, requests, indirect, tail))
    ensures c == s.Compiled(e.f, requests, indirect, false) && s.Starts(c.requests, c.indirect)
    ensures a == s.Compiled(e.args[0], c.requests, c.indirect, false)
    ensures |s.Compiled(e, requests, indirect, tail).words| == |c.words| + |a.words| + 2
    ensures s.At(m, c) && s.At(m.(ip := m.ip + |c.words|), a)
    ensures CodeAt(m.(ip := m.ip + |c.words| + |a.words|),
                   [Op(ImmediateOp(s.g.modules[e.f.x].op)), Long(e.args[1].i)])
  {
    c := s.Compiled(e.f, requests, indirect, false);
    a := s.Compiled(e.args[0], c.requests, c.indirect, false);
    CompileGrows(s.g, e.f, s.Scope(), s.depth, requests, indirect, false);
    CompileGrows(s.g, e.args[0], s.Scope(), s.depth, c.requests, c.indirect, false);
    var op := [Op(ImmediateOp(s.g.modules[e.f.x].op)), Long(e.args[1].i)];
    assert s.Compiled(e, requests, indirect, tail).words == c.words + a.words + op;
    CodeSplit(m, c.words + a.words, op);
    CodeSplit(m, c.words, a.words);
  }

  // ----- The simulation -----

  lemma Chain(defs: map<Symbol, Cell>, m: Machine, a: nat, m1: Machine, b: nat)
    requires Steps(defs, m, a) == m1
    ensures Steps(defs, m, a + b) == Steps(defs, m1, b)
  {
    StepsAdd(defs, m, a, b);
  }

  lemma AgreesChain(g: Globals, o: Outcome, m: Machine, a: nat, m1: Machine, b: nat, target: Machine, fuel: nat)
    requires target.Running? && Steps(DefsOf(g), m, a) == m1
    requires Agrees(g, o, b >= fuel, Steps(DefsOf(g), m1, b), target)
    ensures Agrees(g, o, a + b >= fuel, Steps(DefsOf(g), m, a + b), target)
  {
    hide Form, Steps;
    Chain(DefsOf(g), m, a, m1, b);
  }

  /** One step before a run. */
  lemma AgreesAfter(g: Globals, o: Outcome, m: Machine, m1: Machine, k: nat, target: Machine, fuel: nat)
    requires target.Running? && Steps(DefsOf(g), m, 1) == m1
    requires Agrees(g, o, k + 1 >= fuel, Steps(DefsOf(g), m1, k), target)
    ensures Agrees(g, o, 1 + k >= fuel, Steps(DefsOf(g), m, 1 + k), target)
  {
    hide Form, Steps;
    Chain(DefsOf(g), m, 1, m1, k);
  }

  /** What d1 held before does not matter to a run that leaves its value there. */
  lemma AgreesAnyD1(g: Globals, o: Outcome, late: bool, m: Machine, target: Machine, c: Cell)
    requires target.Running? && Agrees(g, o, late, m, target.(d1 := c))
    ensures Agrees(g, o, late, m, target)
  {
    hide Form;
  }

  lemma AgreesParts(g: Globals, o: Outcome, late: bool, m: Machine, target: Machine)
    requires target.Running? && Agrees(g, o, late, m, target)
    ensures o.Val? ==> m == target.(d1 := Form(g, o.v))
  {
    hide Form;
  }

  /** Where there is no value, where it would have gone does not matter. */
  lemma AgreesElsewhere(g: Globals, o: Outcome, late: bool, m: Machine, target: Machine, other: Machine)
    requires target.Running? && other.Running? && !o.Val? && Agrees(g, o, late, m, target)
    ensures Agrees(g, o, late, m, other)
  {
  }

  lemma AgreesValue(g: Globals, v: Value, late: bool, m: Machine, target: Machine)
    requires target.Running? && m == target.(d1 := Form(g, v))
    ensures Agrees(g, Val(v), late, m, target)
  {
    hide Form;
  }

  /** Code in any position leaves the value in d1, ends just past itself, and restores
      everything else. */
  lemma {:induction false} Simulate(s: Site, m: Machine, e: Expr, requests: seq<Symbol>, indirect: seq<nat>, fuel: nat)
    returns (n: nat)
    requires s.Starts(requests, indirect) && s.At(m, s.Compiled(e, requests, indirect, false))
    ensures Agrees(s.g, Eval(s.g, e, s.env, fuel), n >= fuel, Steps(DefsOf(s.g), m, n),
                   m.(ip := m.ip + |s.Compiled(e, requests, indirect, false).words|))
    decreases fuel, 1, e, 2
  {
    match e
    case Num(i) =>
      RunLoad(DefsOf(s.g), m, IntC(i));
      n := 1;
    case Flag(b) =>
      RunLoad(DefsOf(s.g), m, BoolC(b));
      n := 1;
    case Quote(d) =>
      FormOfDatum(s.g, d);
      RunLoad(DefsOf(s.g), m, InjectCell(d));
      n := 1;
    case Var(x) => n := SimVar(s, m, x, requests, indirect, fuel);
    case Lambda(_, _, _) => n := SimLambda(s, m, e, requests, indirect, fuel);
    case If(_, _, _) => n := SimIf(s, m, e, requests, indirect, fuel);
    case Call(_, _) =>
      if IsImmediate(s.g, e, s.Scope()) {
        n := SimImmediate(s, m, e, requests, indirect, fuel, false);
      } else {
        n := SimCallForm(s, m, e, requests, indirect, fuel);
      }
  }

  lemma IfEval(s: Site, e: Expr, fuel: nat)
    requires e.If?
    ensures var o := Eval(s.g, e.test, s.env, fuel);
            Eval(s.g, e, s.env, fuel) ==
              if !o.Val? then o
              else if o.v != BoolV(false) then Eval(s.g, e.yes, s.env, fuel)
              else Eval(s.g, e.no, s.env, fuel)
  {
  }

  /** The test of a conditional: the machine then stands at the chosen branch. */
  lemma {:induction false} SimTest(s: Site, m: Machine, e: Expr, requests: seq<Symbol>, indirect: seq<nat>, fuel: nat,
                                   tail: bool)
    returns (n: nat)
    requires e.If? && s.Starts(requests, indirect) && s.At(m, s.Compiled(e, requests, indirect, tail))
    ensures var t := s.Compiled(e.test, requests, indirect, false);
            var y := s.Compiled(e.yes, t.requests, t.indirect, tail);
            var o := Eval(s.g, e.test, s.env, fuel);
            && (o.Val? ==>
                  Steps(DefsOf(s.g), m, n) ==
                  m.(d1 := Form(s.g, o.v), ip := m.ip + |t.words| + if o.v != BoolV(false) then 2 else |y.words| + 4))
            && (!o.Val? ==> Agrees(s.g, o, n >= fuel, Steps(DefsOf(s.g), m, n), m))
    decreases fuel, 1, e.test, 3
  {
    hide Eval, Steps, Situated, Compile, Form, DefsOf, Sound, Covered, Agrees, CodeAt;
    var t, y, no := IfLayout(s, m, e, requests, indirect, tail);
    n := Simulate(s, m, e.test, requests, indirect, fuel);
    var o, end := Eval(s.g, e.test, s.env, fuel), m.(ip := m.ip + |t.words|);
    AgreesParts(s.g, o, n >= fuel, Steps(DefsOf(s.g), m, n), end);
    if o.Val? {
      var m1 := end.(d1 := Form(s.g, o.v));
      BraAnyD1(end, m1.d1, [Op(BF), Long(|y.words| + 4)]);
      BranchStep(s.g, m1, o.v, |y.words| + 4);
      Chain(DefsOf(s.g), m, n, m1, 1);
      n := n + 1;
    } else {
      AgreesElsewhere(s.g, o, n >= fuel, Steps(DefsOf(s.g), m, n), end, m);
    }
  }

  lemma BranchStep(g: Globals, m: Machine, v: Value, k: nat)
    requires m.Running? && CodeAt(m, [Op(BF), Long(k)]) && m.d1 == Form(g, v)
    ensures Steps(DefsOf(g), m, 1) == m.(ip := m.ip + if v != BoolV(false) then 2 else k)
  {
    assert v == BoolV(false) <==> Form(g, v) == BoolC(false);
    hide Form, DefsOf, Steps;
    OperandStep(DefsOf(g), m, BF, Long(k));
  }

  lemma {:induction false} SimIf(s: Site, m: Machine, e: Expr, requests: seq<Symbol>, indirect: seq<nat>, fuel: nat)
    returns (n: nat)
    requires e.If? && s.Starts(requests, indirect) && s.At(m, s.Compiled(e, requests, indirect, false))
    ensures Agrees(s.g, Eval(s.g, e, s.env, fuel), n >= fuel, Steps(DefsOf(s.g), m, n),
                   m.(ip := m.ip + |s.Compiled(e, requests, indirect, false).words|))
    decreases fuel, 1, e, 1
  {
    hide Eval, Steps, Situated, Compile, Form, CodeAt, Covered, DefsOf, Sound, Agrees;
    IfEval(s, e, fuel);
    var t, y, no := IfLayout(s, m, e, requests, indirect, false);
    n := SimTest(s, m, e, requests, indirect, fuel, false);
    var o, end := Eval(s.g, e.test, s.env, fuel), m.(ip := m.ip + |s.Compiled(e, requests, indirect, false).words|);
    if !o.Val? {
      AgreesElsewhere(s.g, o, n >= fuel, Steps(DefsOf(s.g), m, n), m, end);
    } else if o.v != BoolV(false) {
      var m1 := m.(d1 := Form(s.g, o.v), ip := m.ip + |t.words| + 2);
      AtAnyD1(s, m.(ip := m.ip + |t.words| + 2), y, m1.d1);
      BraAnyD1(m.(ip := m.ip + |t.words| + 2 + |y.words|), m1.d1, [Op(BRA), Long(|no.words| + 2)]);
      var k := SimYes(s, m1, e, t.requests, t.indirect, fuel, no.words);
      AgreesOn(s.g, Eval(s.g, e.yes, s.env, fuel), m, n, m1, k, end, fuel);
      n := n + k;
    } else {
      var m1 := m.(d1 := Form(s.g, o.v), ip := m.ip + |t.words| + |y.words| + 4);
      AtAnyD1(s, m.(ip := m.ip + |t.words| + |y.words| + 4), no, m1.d1);
      var k := Simulate(s, m1, e.no, y.requests, y.indirect, fuel);
      AgreesOn(s.g, Eval(s.g, e.no, s.env, fuel), m, n, m1, k, end, fuel);
      n := n + k;
    }
  }

  /** A run up to a place, and from there to the end. */
  lemma AgreesOn(g: Globals, o: Outcome, m: Machine, n: nat, m1: Machine, k: nat, end: Machine, fuel: nat)
    requires m1.Running? && end.Running? && Steps(DefsOf(g), m, n) == m1
    requires Agrees(g, o, k >= fuel, Steps(DefsOf(g), m1, k), end.(d1 := m1.d1))
    ensures Agrees(g, o, n + k >= fuel, Steps(DefsOf(g), m, n + k), end)
  {
    hide Form, Steps, Agrees;
    AgreesAnyD1(g, o, k >= fuel, Steps(DefsOf(g), m1, k), end, m1.d1);
    AgreesChain(g, o, m, n, m1, k, end, fuel);
  }

  lemma BraAnyD1(m: Machine, c: Cell, w: seq<Word>)
    requires CodeAt(m, w)
    ensures CodeAt(m.(d1 := c), w)
  {
  }

  /** The first branch of a conditional and the jump over the second. */
  lemma {:induction false} SimYes(s: Site, m: Machine, e: Expr, requests: seq<Symbol>, indirect: seq<nat>, fuel: nat,
                                  no: seq<Word>)
    returns (n: nat)
    requires e.If? && s.Starts(requests, indirect) && s.At(m, s.Compiled(e.yes, requests, indirect, false))
    requires CodeAt(m.(ip := m.ip + |s.Compiled(e.yes, requests, indirect, false).words|),
                    [Op(BRA), Long(|no| + 2)])
    ensures Agrees(s.g, Eval(s.g, e.yes, s.env, fuel), n >= fuel, Steps(DefsOf(s.g), m, n),
                   m.(ip := m.ip + |s.Compiled(e.yes, requests, indirect, false).words| + |no| + 2))
    decreases fuel, 1, e.yes, 3
  {
    hide Eval, Steps, Situated, Compile, Form, CodeAt, Covered, DefsOf, Sound, Agrees;
    var y := s.Compiled(e.yes, requests, indirect, false);
    n := Simulate(s, m, e.yes, requests, indirect, fuel);
    var o := Eval(s.g, e.yes, s.env, fuel);
    var end, past := m.(ip := m.ip + |y.words|), m.(ip := m.ip + |y.words| + |no| + 2);
    AgreesParts(s.g, o, n >= fuel, Steps(DefsOf(s.g), m, n), end);
    if o.Val? {
      var m2 := end.(d1 := Form(s.g, o.v));
      BraAnyD1(end, m2.d1, [Op(BRA), Long(|no| + 2)]);
      JumpStep(s.g, m2, |no| + 2);
      Chain(DefsOf(s.g), m, n, m2, 1);
      n := n + 1;
      AgreesValue(s.g, o.v, n >= fuel, Steps(DefsOf(s.g), m, n), past);
    } else {
      AgreesElsewhere(s.g, o, n >= fuel, Steps(DefsOf(s.g), m, n), end, past);
    }
  }

  lemma JumpStep(g: Globals, m: Machine, k: nat)
    requires m.Running? && CodeAt(m, [Op(BRA), Long(k)])
    ensures Steps(DefsOf(g), m, 1) == m.(ip := m.ip + k)
  {
    hide DefsOf, Steps;
    OperandStep(DefsOf(g), m, BRA, Long(k));
  }

  /** ADDI and its kin do what the library procedure does. */
  lemma ImmediateApply(op: ArithOp, v: Value, k: int)
    ensures ApplyPrim(Arith(op), [v, IntV(k)]) ==
            if v.IntV? && Combine(op, v.i, k).Some? then Val(IntV(Combine(op, v.i, k).value)) else Err
  {
    var vs := [v, IntV(k)];
    if v.IntV? {
      assert AllInts(vs);
      TwoOperands(op, v.i, k);
      assert Ints(vs) == [v.i, k];
    } else {
      assert !vs[0].IntV?;
    }
    hide Arithmetic, Combine;
  }

  lemma ImmediateStep(defs: map<Symbol, Cell>, m: Machine, op: ArithOp, k: int)
    requires m.Running?
    ensures StepOperand(defs, m, ImmediateOp(op), Long(k)) == StepArith(m, op, Long(k))
  {
    hide StepArith;
    match op
    case Add =>
    case Sub =>
    case Mul =>
    case Div =>
  }

  lemma ImmediateAgrees(g: Globals, op: ArithOp, v: Value, k: int, m: Machine, fuel: nat)
    requires m.Running? && m.d1 == Form(g, v) && CodeAt(m, [Op(ImmediateOp(op)), Long(k)])
    ensures Agrees(g, Apply(g, PrimV(Arith(op)), [v, IntV(k)], fuel), false, Steps(DefsOf(g), m, 1), m.(ip := m.ip + 2))
  {
    assert m.d1.IntC? <==> v.IntV?;
    assert v.IntV? ==> m.d1 == IntC(v.i);
    assert forall i :: Form(g, IntV(i)) == IntC(i);
    hide Steps, DefsOf, Combine, ApplyPrim, StepOperand, Form;
    OperandStep(DefsOf(g), m, ImmediateOp(op), Long(k));
    ImmediateStep(DefsOf(g), m, op, k);
    ImmediateApply(op, v, k);
  }

  lemma TwoOperands(op: ArithOp, a: int, b: int)
    ensures Arithmetic(op, [a, b]) == Combine(op, a, b)
  {
    assert [a, b][1..] == [b] && [b][1..] == [];
    match Combine(op, a, b)
    case None =>
    case Some(c) => assert Fold(op, c, []) == Some(c);
    if op == Add {
      assert Fold(Add, 0, [a, b]) == Fold(Add, a, [b]);
    }
  }

  lemma {:induction false} SimImmediate(s: Site, m: Machine, e: Expr, requests: seq<Symbol>, indirect: seq<nat>,
                                        fuel: nat, tail: bool)
    returns (n: nat)
    requires IsImmediate(s.g, e, s.Scope())
    requires s.Starts(requests, indirect) && s.At(m, s.Compiled(e, requests, indirect, tail))
    ensures Agrees(s.g, Eval(s.g, e, s.env, fuel), n >= fuel, Steps(DefsOf(s.g), m, n),
                   m.(ip := m.ip + |s.Compiled(e, requests, indirect, tail).words|))
    decreases fuel, 1, e, 1
  {
    hide Eval, EvalArgs, Apply, Steps, Situated, Compile, Form, CodeAt, Covered, DefsOf, Sound, Agrees;
    ImmediateEval(s, e, fuel);
    var op := s.g.modules[e.f.x].op;
    var c, a := ImmediateLayout(s, m, e, requests, indirect, tail);
    n := Simulate(s, m, e.f, requests, indirect, fuel);
    AgreesParts(s.g, Eval(s.g, e.f, s.env, fuel), n >= fuel, Steps(DefsOf(s.g), m, n), m.(ip := m.ip + |c.words|));
    var m1 := m.(d1 := Form(s.g, PrimV(Arith(op))), ip := m.ip + |c.words|);
    AtAnyD1(s, m.(ip := m.ip + |c.words|), a, m1.d1);
    var k := Simulate(s, m1, e.args[0], c.requests, c.indirect, fuel);
    var o, end := Eval(s.g, e.args[0], s.env, fuel), m1.(ip := m1.ip + |a.words|);
    var past := m.(ip := m.ip + |s.Compiled(e, requests, indirect, tail).words|);
    AgreesChain(s.g, o, m, n, m1, k, end, fuel);
    n := n + k;
    AgreesParts(s.g, o, n >= fuel, Steps(DefsOf(s.g), m, n), end);
    if o.Val? {
      var m2 := end.(d1 := Form(s.g, o.v));
      BraAnyD1(m.(ip := m2.ip), m2.d1, [Op(ImmediateOp(op)), Long(e.args[1].i)]);
      ImmediateAgrees(s.g, op, o.v, e.args[1].i, m2, fuel);
      var r := Apply(s.g, PrimV(Arith(op)), [o.v, IntV(e.args[1].i)], fuel);
      LateAnyway(s.g, r, 1 >= fuel, Steps(DefsOf(s.g), m2, 1), m2.(ip := m2.ip + 2));
      AgreesChain(s.g, r, m, n, m2, 1, m2.(ip := m2.ip + 2), fuel);
      AgreesAnyD1(s.g, r, n + 1 >= fuel, Steps(DefsOf(s.g), m, n + 1), past, m2.d1);
      n := n + 1;
    } else {
      AgreesElsewhere(s.g, o, n >= fuel, Steps(DefsOf(s.g), m, n), end, past);
    }
  }

  lemma ImmediateEval(s: Site, e: Expr, fuel: nat)
    requires IsImmediate(s.g, e, s.Scope())
    ensures Eval(s.g, e.f, s.env, fuel) == Val(PrimV(s.g.modules[e.f.x]))
    ensures var o := Eval(s.g, e.args[0], s.env, fuel);
            Eval(s.g, e, s.env, fuel) ==
              if o.Val? then Apply(s.g, PrimV(s.g.modules[e.f.x]), [o.v, IntV(e.args[1].i)], fuel) else o
  {
    var args := e.args;
    assert args[1..][0] == args[1] && args[1..][1..] == [];
    ArgsEval(s, args, fuel);
    ArgsEval(s, args[1..], fuel);
    assert EvalArgs(s.g, args[1..][1..], s.env, fuel) == Vals([]);
    assert EvalArgs(s.g, args[1..], s.env, fuel) == Vals([IntV(args[1].i)]);
    var o := Eval(s.g, args[0], s.env, fuel);
    if o.Val? {
      assert [o.v] + [IntV(args[1].i)] == [o.v, IntV(args[1].i)];
    }
  }

  lemma {:induction false} SimArgs(s: Site, m: Machine, args: seq<Expr>, done: nat, requests: seq<Symbol>,
                                   indirect: seq<nat>, fuel: nat)
    returns (n: nat)
    requires s.Starts(requests, indirect)
    requires s.At(m, CompileArgs(s.g, args, done, s.Scope(), s.depth, requests, indirect))
    requires 2 + done + |args| <= s.depth <= |m.stack|
    ensures ArgsAgree(s.g, EvalArgs(s.g, args, s.env, fuel), n >= fuel, Steps(DefsOf(s.g), m, n), m,
                      |CompileArgs(s.g, args, done, s.Scope(), s.depth, requests, indirect).words|, 2 + done)
    decreases fuel, 1, args, 1
  {
    if args == [] {
      n := 0;
      assert Fill(m.stack, 2 + done, []) == m.stack;
    } else {
      n := SimArgsCons(s, m, args, done, requests, indirect, fuel);
    }
  }

  lemma {:induction false} SimArgsCons(s: Site, m: Machine, args: seq<Expr>, done: nat, requests: seq<Symbol>,
                                       indirect: seq<nat>, fuel: nat)
    returns (n: nat)
    requires args != [] && s.Starts(requests, indirect)
    requires s.At(m, CompileArgs(s.g, args, done, s.Scope(), s.depth, requests, indirect))
    requires 2 + done + |args| <= s.depth <= |m.stack|
    ensures ArgsAgree(s.g, EvalArgs(s.g, args, s.env, fuel), n >= fuel, Steps(DefsOf(s.g), m, n), m,
                      |CompileArgs(s.g, args, done, s.Scope(), s.depth, requests, indirect).words|, 2 + done)
    decreases fuel, 1, args, 0
  {
    hide Eval, EvalArgs, Steps, Situated, Compile, CompileArgs, Form, Fill, ArgsAgree, CodeAt, Covered, DefsOf, Sound;
    ArgsEval(s, args, fuel);
    var a, rest := ArgsLayout(s, m, args, done, requests, indirect);
    n := Simulate(s, m, args[0], requests, indirect, fuel);
    var o := Eval(s.g, args[0], s.env, fuel);
    if o.Val? {
      var m2 := m.(d1 := Form(s.g, o.v), ip := m.ip + |a.words| + 2, stack := m.stack[2 + done := Form(s.g, o.v)]);
      StoreArg(s, m, n, Form(s.g, o.v), |a.words|, 2 + done);
      StoreMoves(s, m, m2, 2 + done, m2.d1, rest);
      var k := SimArgs(s, m2, args[1..], done + 1, a.requests, a.indirect, fuel);
      Chain(DefsOf(s.g), m, n + 1, m2, k);
      n := n + 1 + k;
      ArgsCons(s.g, o.v, EvalArgs(s.g, args[1..], s.env, fuel), k >= fuel, n >= fuel, Steps(DefsOf(s.g), m, n), m, m2,
               |rest.words|, |a.words| + 2 + |rest.words|, 2 + done);
    } else {
      ArgsStop(s.g, EvalArgs(s.g, args, s.env, fuel), n >= fuel, Steps(DefsOf(s.g), m, n), m,
               |a.words| + 2 + |rest.words|, 2 + done);
    }
  }

  lemma StoreArg(s: Site, m: Machine, n: nat, c: Cell, len: nat, slot: nat)
    requires m.Running? && slot < |m.stack| && CodeAt(m.(ip := m.ip + len), [Op(STORE), Long(slot)])
    requires Steps(DefsOf(s.g), m, n) == m.(d1 := c, ip := m.ip + len)
    ensures Steps(DefsOf(s.g), m, n + 1) == m.(d1 := c, ip := m.ip + len + 2, stack := m.stack[slot := c])
  {
    hide Steps;
    var m1 := m.(d1 := c, ip := m.ip + len);
    RunStore(DefsOf(s.g), m1, slot);
    Chain(DefsOf(s.g), m, n, m1, 1);
  }

  lemma ArgsCons(g: Globals, v: Value, os: Outcomes, late: bool, later: bool, m': Machine, m: Machine, m2: Machine,
                 len': nat, len: nat, slot: nat)
    requires m.Running? && m2.Running? && slot < |m.stack|
    requires m2 == m.(d1 := m2.d1, ip := m2.ip, stack := m.stack[slot := Form(g, v)])
    requires m2.ip + len' == m.ip + len
    requires late ==> later
    requires ArgsAgree(g, os, late, m', m2, len', slot + 1)
    ensures ArgsAgree(g, if os.Vals? then Vals([v] + os.vs) else os, later, m', m, len, slot)
  {
    hide Form, Fill;
    if os.Vals? {
      FillOne(m.stack, slot, Form(g, v), Forms(g, os.vs));
      assert Forms(g, [v] + os.vs) == [Form(g, v)] + Forms(g, os.vs);
    }
  }

  lemma ArgsStop(g: Globals, os: Outcomes, late: bool, m': Machine, m: Machine, len: nat, slot: nat)
    requires m.Running? && !os.Vals? && (os.ErrS? ==> m' == Thrown) && (os.TimeoutS? ==> m'.Running? && late)
    ensures ArgsAgree(g, os, late, m', m, len, slot)
  {
  }

  lemma StoreMoves(s: Site, m: Machine, m2: Machine, k: nat, c: Cell, rest: Gen)
    requires Situated(s.g, m, s.env, s.depth, s.wanted, s.boxed) && k < s.depth <= |m.stack|
    requires m2.Running? && m2.stack == m.stack[k := c] && m2.ep == m.ep && m2.code == m.code
    requires Covered(rest, s.wanted, s.boxed) && CodeAt(m.(ip := m2.ip), rest.words)
    ensures s.At(m2, rest)
  {
    StoreKeeps(s, m, k, c);
  }

  lemma ArgsEval(s: Site, args: seq<Expr>, fuel: nat)
    requires args != []
    ensures var o := Eval(s.g, args[0], s.env, fuel);
            var os := EvalArgs(s.g, args[1..], s.env, fuel);
            EvalArgs(s.g, args, s.env, fuel) ==
              if o.Err? then ErrS else if o.Timeout? then TimeoutS
              else if os.Vals? then Vals([o.v] + os.vs) else os
  {
  }

  /** What evaluating procedure and arguments comes to, before the application. */
  function Operands(g: Globals, e: Expr, env: seq<Frame>, fuel: nat): (o: Outcomes)
    requires e.Call?
    ensures o.Vals? ==> |o.vs| == |e.args| + 1
  {
    match Eval(g, e.f, env, fuel)
    case Err => ErrS
    case Timeout => TimeoutS
    case Val(fv) =>
      match EvalArgs(g, e.args, env, fuel)
      case Vals(vs) => Vals([fv] + vs)
      case other => other
  }

  lemma CallEval(g: Globals, e: Expr, env: seq<Frame>, fuel: nat)
    requires e.Call?
    ensures var o := Operands(g, e, env, fuel);
            Eval(g, e, env, fuel) ==
              if o.Vals? then Apply(g, o.vs[0], o.vs[1..], fuel) else if o.ErrS? then Err else Timeout
  {
    var o, os := Eval(g, e.f, env, fuel), EvalArgs(g, e.args, env, fuel);
    if o.Val? && os.Vals? {
      assert ([o.v] + os.vs)[1..] == os.vs;
    }
  }

  /** The machine stands at a transfer with the callee's frame built on top of the stack. */
  predicate FrameBuilt(g: Globals, o: Outcomes, late: bool, m': Machine, m: Machine, len: nat)
    requires m.Running?
    requires o.Vals? ==> |o.vs| > 0
  {
    match o
    case Vals(ws) =>
      && m'.Running? && CalleeFrame(g, m'.stack, ws[0], ws[1..], m.stack)
      && m' == m.(d1 := m'.d1, ip := m.ip + len, stack := m'.stack)
    case ErrS => m' == Thrown
    case TimeoutS => m'.Running? && late
  }

  lemma FilledFrame(g: Globals, fv: Value, vs: seq<Value>, stack: seq<Cell>)
    ensures 2 + |vs| <= |NewFrame(Form(g, fv), |vs|) + stack|
    ensures CalleeFrame(g, Fill(NewFrame(Form(g, fv), |vs|) + stack, 2, Forms(g, vs)), fv, vs, stack)
  {
    hide Form;
    var f := NewFrame(Form(g, fv), |vs|);
    assert (f + stack)[..2] == [Form(g, fv), IntC(|vs|)];
    assert (f + stack)[2 + |vs|..] == stack;
  }

  lemma InnerAt(s: Site, m: Machine, top: seq<Cell>, m2: Machine, inner: Site, a: Gen)
    requires Situated(s.g, m, s.env, s.depth, s.wanted, s.boxed)
    requires m2.Running? && m2.stack == top + m.stack && m2.ep == m.ep
    requires inner == s.(depth := |top| + s.depth)
    requires Covered(a, s.wanted, s.boxed) && CodeAt(m2, a.words)
    ensures inner.At(m2, a) && |m2.stack| >= inner.depth
  {
    PushKeeps(s, m, top);
  }

  lemma {:induction false} SimFrame(s: Site, m: Machine, e: Expr, requests: seq<Symbol>, indirect: seq<nat>, fuel: nat,
                                    tail: bool)
    returns (n: nat)
    requires e.Call? && !IsImmediate(s.g, e, s.Scope())
    requires s.Starts(requests, indirect) && s.At(m, s.Compiled(e, requests, indirect, tail))
    ensures FrameBuilt(s.g, Operands(s.g, e, s.env, fuel), n >= fuel, Steps(DefsOf(s.g), m, n), m,
                       |s.Compiled(e, requests, indirect, tail).words| - 1)
    decreases fuel, 1, e, 0
  {
    hide Eval, EvalArgs, Steps, Situated, Compile, CompileArgs, Form, Fill, CalleeFrame;
    var c, a, inner := CallLayout(s, m, e, requests, indirect, tail);
    n := Simulate(s, m, e.f, requests, indirect, fuel);
    match Eval(s.g, e.f, s.env, fuel)
    case Val(fv) =>
      var m1 := m.(d1 := Form(s.g, fv), ip := m.ip + |c.words|);
      RunFrame(DefsOf(s.g), m1, |e.args|);
      Chain(DefsOf(s.g), m, n, m1, 1);
      var top := NewFrame(m1.d1, |e.args|);
      var m2 := m1.(stack := top + m1.stack, ip := m1.ip + 2);
      InnerAt(s, m, top, m2, inner, a);
      var k := SimArgs(inner, m2, e.args, 0, c.requests, c.indirect, fuel);
      Chain(DefsOf(s.g), m, n + 1, m2, k);
      n := n + 1 + k;
      var os := EvalArgs(s.g, e.args, s.env, fuel);
      if os.Vals? {
        FilledFrame(s.g, fv, os.vs, m.stack);
        assert ([fv] + os.vs)[1..] == os.vs;
      }
    case _ =>
  }

  lemma {:induction false} SimCallForm(s: Site, m: Machine, e: Expr, requests: seq<Symbol>, indirect: seq<nat>,
                                       fuel: nat)
    returns (n: nat)
    requires e.Call? && !IsImmediate(s.g, e, s.Scope())
    requires s.Starts(requests, indirect) && s.At(m, s.Compiled(e, requests, indirect, false))
    ensures Agrees(s.g, Eval(s.g, e, s.env, fuel), n >= fuel, Steps(DefsOf(s.g), m, n),
                   m.(ip := m.ip + |s.Compiled(e, requests, indirect, false).words|))
    decreases fuel, 1, e, 1
  {
    hide Eval, EvalArgs, Apply, Steps, Situated, Compile, CompileArgs, Form, Fill, CalleeFrame, Operands;
    CallEval(s.g, e, s.env, fuel);
    var c, a, inner := CallLayout(s, m, e, requests, indirect, false);
    n := SimFrame(s, m, e, requests, indirect, fuel, false);
    match Operands(s.g, e, s.env, fuel)
    case Vals(ws) =>
      var m1 := Steps(DefsOf(s.g), m, n);
      assert CodeAt(m1, [Op(CALL)]);
      var k := SimCall(s.g, m1, ws[0], ws[1..], m.stack, fuel);
      Chain(DefsOf(s.g), m, n, m1, k);
      n := n + k;
    case _ =>
  }

  /** The environment a closure starts in; code without captures leaves the register be. */
  function StartEp(c: Cell, base: seq<Cell>): seq<Cell> {
    if c.LambdaC? then c.env else base
  }

  lemma StartCarries(g: Globals, c: Value, base: seq<Cell>)
    requires c.Closure?
    ensures var (code, wanted) := CompileLambda(g, c.params, c.init, c.last, ScopeOf(c.env));
            var cell := Form(g, c);
            && (cell.CodeC? || cell.LambdaC?) && cell.code == code && code.vars == c.params
            && Carried(g, StartEp(cell, base), c.env, wanted)
  {
    FormOfClosure(g, c.params, c.init, c.last, c.env);
    LambdaRequests(g, c.params, c.init, c.last, ScopeOf(c.env));
    hide Form, CompileLambda, InScope, Lookup;
  }

  /** Where the code on top of the return stack goes on, given what is left of the stack. */
  function Resumed(m: Machine, rest: seq<Cell>): Machine
    requires m.Running? && m.rp != []
  {
    Running(m.d1, m.rp[0].code, m.rp[0].ip + 1, rest, m.rp[1..], m.rp[0].ep)
  }

  /** Running a closure whose frame is on top of the stack returns its value. */
  lemma {:induction false} SimEntry(g: Globals, m: Machine, c: Value, vs: seq<Value>, rest: seq<Cell>, base: seq<Cell>,
                                    fuel: nat)
    returns (m1: Machine, n: nat)
    requires c.Closure? && |vs| == |c.params| && fuel > 0
    requires m.Running? && m.rp != [] && CalleeFrame(g, m.stack, c, vs, rest)
    ensures HasFrame(m.stack)
    ensures var cell := Form(g, c);
            (cell.CodeC? || cell.LambdaC?) && m1 == Enter(m, cell.code, StartEp(cell, base))
    ensures Agrees(g, Apply(g, c, vs, fuel), n + 1 >= fuel, Steps(DefsOf(g), m1, n), Resumed(m, rest))
    decreases fuel, 0, 0
  {
    hide Form, CompileLambda, CalleeFrame, Carried, Situated, EvalBody, Steps, DefsOf, Body, Sound;
    assert Apply(g, c, vs, fuel) == EvalBody(g, c.init, c.last, [Bind(c.params, vs)] + c.env, fuel - 1);
    hide Apply;
    var (code, wanted) := CompileLambda(g, c.params, c.init, c.last, ScopeOf(c.env));
    StartCarries(g, c, base);
    var ep := StartEp(Form(g, c), base);
    Entered(g, c, vs, m, rest, ep);
    m1 := Enter(m, code, ep);
    var s := Site(g, [Bind(c.params, vs)] + c.env, 0, wanted, code.indirect);
    BodyCode(s, c, vs);
    n := SimBody(s, m1, c.init, c.last, [], [], fuel - 1);
  }

  /** The words of a closure are those of its body in the scope it runs in. */
  lemma BodyCode(s: Site, c: Value, vs: seq<Value>)
    requires c.Closure? && |vs| == |c.params| && s.env == [Bind(c.params, vs)] + c.env && s.depth == 0
    ensures var (code, wanted) := CompileLambda(s.g, c.params, c.init, c.last, ScopeOf(c.env));
            var b := Body(s, c.init, c.last, [], []);
            code.words == b.words + [Op(RET)] && wanted == b.requests && code.indirect == b.indirect
    ensures s.Starts([], [])
  {
    assert s.Scope() == [c.params] + ScopeOf(c.env);
  }

  function Body(s: Site, init: seq<Expr>, last: Expr, requests: seq<Symbol>, indirect: seq<nat>): Gen {
    var i := CompileInit(s.g, init, s.Scope(), requests, indirect);
    var b := s.Compiled(last, i.requests, i.indirect, true);
    Gen(i.words + b.words, b.requests, b.indirect)
  }

  lemma BodyStep(s: Site, init: seq<Expr>, last: Expr, requests: seq<Symbol>, indirect: seq<nat>)
    returns (a: Gen, rest: Gen)
    requires init != [] && s.depth == 0 && s.Starts(requests, indirect)
    ensures a == s.Compiled(init[0], requests, indirect, false) && s.Starts(a.requests, a.indirect)
    ensures rest == Body(s, init[1..], last, a.requests, a.indirect)
    ensures a.requests <= rest.requests && a.indirect <= rest.indirect
    ensures Body(s, init, last, requests, indirect) == Gen(a.words + rest.words, rest.requests, rest.indirect)
  {
    a := s.Compiled(init[0], requests, indirect, false);
    CompileGrows(s.g, init[0], s.Scope(), s.depth, requests, indirect, false);
    rest := Body(s, init[1..], last, a.requests, a.indirect);
    var i := CompileInit(s.g, init[1..], s.Scope(), a.requests, a.indirect);
    InitGrows(s.g, init[1..], s.Scope(), a.requests, a.indirect);
    CompileGrows(s.g, last, s.Scope(), 0, i.requests, i.indirect, true);
    hide Compile;
    assert a.words + (i.words + s.Compiled(last, i.requests, i.indirect, true).words) ==
           (a.words + i.words) + s.Compiled(last, i.requests, i.indirect, true).words;
  }

  lemma {:induction false} SimBody(s: Site, m: Machine, init: seq<Expr>, last: Expr, requests: seq<Symbol>,
                                   indirect: seq<nat>, fuel: nat)
    returns (n: nat)
    requires s.depth == 0 && s.Starts(requests, indirect)
    requires s.At(m, Body(s, init, last, requests, indirect))
    requires m.rp != [] && HasFrame(m.stack)
    requires CodeAt(m.(ip := m.ip + |Body(s, init, last, requests, indirect).words|), [Op(RET)])
    ensures Agrees(s.g, EvalBody(s.g, init, last, s.env, fuel), n >= fuel, Steps(DefsOf(s.g), m, n),
                   Resumed(m, Pop(m.stack)))
    decreases fuel, 2, |init|, 1
  {
    if init == [] {
      var b := s.Compiled(last, requests, indirect, true);
      assert Body(s, init, last, requests, indirect) == b by {
        assert [] + b.words == b.words;
      }
      hide Eval, Steps, Situated, Compile, Form;
      assert LeadsToRet(m.code.words, m.ip + |b.words|) by {
        assert m.code.words[m.ip + |b.words|] == [Op(RET)][0];
      }
      n := SimTail(s, m, last, requests, indirect, fuel);
    } else {
      n := SimBodyStep(s, m, init, last, requests, indirect, fuel);
    }
  }

  lemma BodyLayout(s: Site, m: Machine, init: seq<Expr>, last: Expr, requests: seq<Symbol>, indirect: seq<nat>)
    returns (a: Gen, rest: Gen)
    requires init != [] && s.depth == 0 && s.Starts(requests, indirect)
    requires s.At(m, Body(s, init, last, requests, indirect))
    ensures a == s.Compiled(init[0], requests, indirect, false) && s.Starts(a.requests, a.indirect)
    ensures rest == Body(s, init[1..], last, a.requests, a.indirect)
    ensures |Body(s, init, last, requests, indirect).words| == |a.words| + |rest.words|
    ensures s.At(m, a) && s.At(m.(ip := m.ip + |a.words|), rest)
  {
    hide Compile, CompileInit, Body, Form;
    a, rest := BodyStep(s, init, last, requests, indirect);
    CodeSplit(m, a.words, rest.words);
    AtNext(s, m, Body(s, init, last, requests, indirect), rest, |a.words|, m.d1);
  }

  lemma {:induction false} SimBodyStep(s: Site, m: Machine, init: seq<Expr>, last: Expr, requests: seq<Symbol>,
                                       indirect: seq<nat>, fuel: nat)
    returns (n: nat)
    requires init != [] && s.depth == 0 && s.Starts(requests, indirect)
    requires s.At(m, Body(s, init, last, requests, indirect))
    requires m.rp != [] && HasFrame(m.stack)
    requires CodeAt(m.(ip := m.ip + |Body(s, init, last, requests, indirect).words|), [Op(RET)])
    ensures Agrees(s.g, EvalBody(s.g, init, last, s.env, fuel), n >= fuel, Steps(DefsOf(s.g), m, n),
                   Resumed(m, Pop(m.stack)))
    decreases fuel, 2, |init|, 0
  {
    hide Eval, EvalBody, Steps, Situated, Compile, CompileInit, Form, Body, CodeAt, Covered, DefsOf, Sound, HasFrame;
    hide Agrees, Pop;
    BodyEval(s, init, last, fuel);
    var a, rest := BodyLayout(s, m, init, last, requests, indirect);
    n := Simulate(s, m, init[0], requests, indirect, fuel);
    var o, end := Eval(s.g, init[0], s.env, fuel), m.(ip := m.ip + |a.words|);
    AgreesParts(s.g, o, n >= fuel, Steps(DefsOf(s.g), m, n), end);
    if o.Val? {
      var m1 := end.(d1 := Form(s.g, o.v));
      AtAnyD1(s, end, rest, m1.d1);
      BraAnyD1(m.(ip := m1.ip + |rest.words|), m1.d1, [Op(RET)]);
      var k := SimBody(s, m1, init[1..], last, a.requests, a.indirect, fuel);
      AgreesTail(s.g, EvalBody(s.g, init[1..], last, s.env, fuel), m, n, m1, k, fuel);
      n := n + k;
    } else {
      AgreesElsewhere(s.g, o, n >= fuel, Steps(DefsOf(s.g), m, n), end, Resumed(m, Pop(m.stack)));
    }
  }

  lemma BodyEval(s: Site, init: seq<Expr>, last: Expr, fuel: nat)
    requires init != []
    ensures var o := Eval(s.g, init[0], s.env, fuel);
            EvalBody(s.g, init, last, s.env, fuel) ==
              if o.Val? then EvalBody(s.g, init[1..], last, s.env, fuel) else o
  {
  }

  /** The step of a call of a closure: its code is entered, or the count of arguments is wrong. */
  lemma CallClosureStep(g: Globals, m: Machine, c: Value, vs: seq<Value>, rest: seq<Cell>)
    requires c.Closure? && CodeAt(m, [Op(CALL)]) && CalleeFrame(g, m.stack, c, vs, rest)
    ensures var cell := Form(g, c); HasFrame(m.stack) && (cell.CodeC? || cell.LambdaC?)
    ensures var cell, called := Form(g, c), m.(rp := [Return(m.code, m.ip, m.ep)] + m.rp);
            Steps(DefsOf(g), m, 1) == if |vs| != |c.params| then Thrown else Enter(called, cell.code, StartEp(cell, []))
  {
    CalleeFrameParts(g, m.stack, c, vs, rest);
    StartCarries(g, c, []);
    hide Form, CompileLambda, CalleeFrame, Carried, DefsOf, Steps;
    SingleStep(DefsOf(g), m, CALL);
  }

  /** Applying a closure to the wrong count of arguments, or without fuel. */
  lemma ClosureApplied(g: Globals, c: Value, vs: seq<Value>, fuel: nat)
    requires c.Closure?
    ensures |vs| != |c.params| ==> Apply(g, c, vs, fuel) == Err
    ensures |vs| == |c.params| && fuel == 0 ==> Apply(g, c, vs, fuel) == Timeout
  {
  }

  lemma ThrownAgrees(g: Globals, late: bool, target: Machine)
    requires target.Running?
    ensures Agrees(g, Err, late, Thrown, target)
  {
  }

  lemma RunningAgrees(g: Globals, m: Machine, target: Machine)
    requires target.Running? && m.Running?
    ensures Agrees(g, Timeout, true, Steps(DefsOf(g), m, 0), target)
  {
  }

  lemma {:induction false} SimCallClosure(g: Globals, m: Machine, fv: Value, vs: seq<Value>, rest: seq<Cell>, fuel: nat)
    returns (n: nat)
    requires m.Running? && fv.Closure? && CodeAt(m, [Op(CALL)]) && CalleeFrame(g, m.stack, fv, vs, rest)
    ensures Agrees(g, Apply(g, fv, vs, fuel), n >= fuel, Steps(DefsOf(g), m, n), m.(ip := m.ip + 1, stack := rest))
    decreases fuel, 0, 1
  {
    hide Form, Steps, CalleeFrame, DefsOf, CodeAt, Enter, StartEp, Apply, Agrees, HasFrame;
    var target := m.(ip := m.ip + 1, stack := rest);
    CallClosureStep(g, m, fv, vs, rest);
    ClosureApplied(g, fv, vs, fuel);
    if |vs| != |fv.params| {
      n := 1;
      ThrownAgrees(g, n >= fuel, target);
    } else if fuel == 0 {
      n := 0;
      RunningAgrees(g, m, target);
    } else {
      var called := m.(rp := [Return(m.code, m.ip, m.ep)] + m.rp);
      var m1, k := SimEntry(g, called, fv, vs, rest, [], fuel);
      CalledResumes(m, called, rest);
      AgreesAfter(g, Apply(g, fv, vs, fuel), m, m1, k, target, fuel);
      n := 1 + k;
    }
  }

  lemma CalledResumes(m: Machine, called: Machine, rest: seq<Cell>)
    requires m.Running? && called == m.(rp := [Return(m.code, m.ip, m.ep)] + m.rp)
    ensures called.rp != [] && Resumed(called, rest) == m.(ip := m.ip + 1, stack := rest)
  {
    assert called.rp[1..] == m.rp;
  }

  lemma SimCallPrim(g: Globals, m: Machine, fv: Value, vs: seq<Value>, rest: seq<Cell>, fuel: nat)
    requires fv.PrimV? && CodeAt(m, [Op(CALL)]) && CalleeFrame(g, m.stack, fv, vs, rest)
    ensures Agrees(g, Apply(g, fv, vs, fuel), false, Steps(DefsOf(g), m, 1), m.(ip := m.ip + 1, stack := rest))
  {
    assert Form(g, fv) == PrimC(fv.p) && Apply(g, fv, vs, fuel) == ApplyPrim(fv.p, vs);
    CalleeFrameParts(g, m.stack, fv, vs, rest);
    hide Form, Steps, CalleeFrame, CallPrim, ApplyPrim, DefsOf, Apply;
    SingleStep(DefsOf(g), m, CALL);
    PrimAgrees(g, fv.p, vs);
  }

  /** A call returns just past itself with the callee's frame gone. */
  lemma {:induction false} SimCall(g: Globals, m: Machine, fv: Value, vs: seq<Value>, rest: seq<Cell>, fuel: nat)
    returns (n: nat)
    requires CodeAt(m, [Op(CALL)]) && CalleeFrame(g, m.stack, fv, vs, rest)
    ensures Agrees(g, Apply(g, fv, vs, fuel), n >= fuel, Steps(DefsOf(g), m, n), m.(ip := m.ip + 1, stack := rest))
    decreases fuel, 0, 2
  {
    n := 1;
    if fv.Closure? {
      n := SimCallClosure(g, m, fv, vs, rest, fuel);
    } else if fv.PrimV? {
      SimCallPrim(g, m, fv, vs, rest, fuel);
      LateAnyway(g, Apply(g, fv, vs, fuel), n >= fuel, Steps(DefsOf(g), m, 1), m.(ip := m.ip + 1, stack := rest));
      hide Steps, Apply, Form;
    } else {
      CalleeFrameParts(g, m.stack, fv, vs, rest);
      SingleStep(DefsOf(g), m, CALL);
    }
  }

  lemma LateAnyway(g: Globals, o: Outcome, late: bool, m: Machine, target: Machine)
    requires target.Running? && Agrees(g, o, false, m, target)
    ensures Agrees(g, o, late, m, target)
  {
    hide Form;
  }

  // ----- Tail position -----

  /** Code in tail position returns from the running lambda with the value. */
  lemma {:induction false} SimTail(s: Site, m: Machine, e: Expr, requests: seq<Symbol>, indirect: seq<nat>, fuel: nat)
    returns (n: nat)
    requires s.depth == 0 && s.Starts(requests, indirect) && s.At(m, s.Compiled(e, requests, indirect, true))
    requires m.rp != [] && HasFrame(m.stack)
    requires LeadsToRet(m.code.words, m.ip + |s.Compiled(e, requests, indirect, true).words|)
    ensures Agrees(s.g, Eval(s.g, e, s.env, fuel), n >= fuel, Steps(DefsOf(s.g), m, n), Resumed(m, Pop(m.stack)))
    decreases fuel, 1, e, 4
  {
    if e.If? {
      n := SimTailIf(s, m, e, requests, indirect, fuel);
    } else if e.Call? && !IsImmediate(s.g, e, s.Scope()) {
      n := SimTailForm(s, m, e, requests, indirect, fuel);
    } else {
      n := SimTailPlain(s, m, e, requests, indirect, fuel);
    }
  }

  lemma PlainCode(s: Site, e: Expr, requests: seq<Symbol>, indirect: seq<nat>)
    requires !e.If? && (e.Call? ==> IsImmediate(s.g, e, s.Scope()))
    ensures s.Compiled(e, requests, indirect, true) == s.Compiled(e, requests, indirect, false)
  {
  }

  /** Code that ignores its position, followed by the way to a return. */
  lemma {:induction false} SimTailPlain(s: Site, m: Machine, e: Expr, requests: seq<Symbol>, indirect: seq<nat>,
                                        fuel: nat)
    returns (n: nat)
    requires !e.If? && (e.Call? ==> IsImmediate(s.g, e, s.Scope()))
    requires s.depth == 0 && s.Starts(requests, indirect) && s.At(m, s.Compiled(e, requests, indirect, true))
    requires m.rp != [] && HasFrame(m.stack)
    requires LeadsToRet(m.code.words, m.ip + |s.Compiled(e, requests, indirect, true).words|)
    ensures Agrees(s.g, Eval(s.g, e, s.env, fuel), n >= fuel, Steps(DefsOf(s.g), m, n), Resumed(m, Pop(m.stack)))
    decreases fuel, 1, e, 3
  {
    hide Eval, Steps, Situated, Compile, Form, CodeAt, Covered, DefsOf, LeadsToRet, HasFrame, Sound, IsImmediate;
    hide Agrees, ReturnTo, Pop;
    PlainCode(s, e, requests, indirect);
    n := Simulate(s, m, e, requests, indirect, fuel);
    var o, end := Eval(s.g, e, s.env, fuel), m.(ip := m.ip + |s.Compiled(e, requests, indirect, true).words|);
    AgreesParts(s.g, o, n >= fuel, Steps(DefsOf(s.g), m, n), end);
    if o.Val? {
      var m1 := end.(d1 := Form(s.g, o.v));
      var k := ReachRet(DefsOf(s.g), m1);
      Chain(DefsOf(s.g), m, n, m1, k);
      n := n + k;
      PlainReturns(s.g, m, m1, o.v, n >= fuel);
    } else {
      AgreesElsewhere(s.g, o, n >= fuel, Steps(DefsOf(s.g), m, n), end, Resumed(m, Pop(m.stack)));
    }
  }

  lemma PlainReturns(g: Globals, m: Machine, m1: Machine, v: Value, late: bool)
    requires m.Running? && m.rp != [] && HasFrame(m.stack) && m1.Running?
    requires m1 == m.(d1 := Form(g, v), ip := m1.ip)
    ensures Agrees(g, Val(v), late, ReturnTo(m1), Resumed(m, Pop(m.stack)))
  {
    hide Form;
  }

  lemma {:induction false} SimTailIf(s: Site, m: Machine, e: Expr, requests: seq<Symbol>, indirect: seq<nat>, fuel: nat)
    returns (n: nat)
    requires e.If?
    requires s.depth == 0 && s.Starts(requests, indirect) && s.At(m, s.Compiled(e, requests, indirect, true))
    requires m.rp != [] && HasFrame(m.stack)
    requires LeadsToRet(m.code.words, m.ip + |s.Compiled(e, requests, indirect, true).words|)
    ensures Agrees(s.g, Eval(s.g, e, s.env, fuel), n >= fuel, Steps(DefsOf(s.g), m, n), Resumed(m, Pop(m.stack)))
    decreases fuel, 1, e, 3
  {
    hide Eval, Steps, Situated, Compile, Form, CodeAt, Covered, DefsOf, LeadsToRet, HasFrame, Sound, Agrees, Pop;
    IfEval(s, e, fuel);
    var t, y, no := IfLayout(s, m, e, requests, indirect, true);
    n := SimTest(s, m, e, requests, indirect, fuel, true);
    var o := Eval(s.g, e.test, s.env, fuel);
    if !o.Val? {
      AgreesElsewhere(s.g, o, n >= fuel, Steps(DefsOf(s.g), m, n), m, Resumed(m, Pop(m.stack)));
    } else if o.v != BoolV(false) {
      var m1 := m.(d1 := Form(s.g, o.v), ip := m.ip + |t.words| + 2);
      AtAnyD1(s, m.(ip := m.ip + |t.words| + 2), y, m1.d1);
      JumpLeads(m.(ip := m.ip + |t.words| + 2 + |y.words|), |no.words| + 2);
      var k := SimTail(s, m1, e.yes, t.requests, t.indirect, fuel);
      AgreesTail(s.g, Eval(s.g, e.yes, s.env, fuel), m, n, m1, k, fuel);
      n := n + k;
    } else {
      var m1 := m.(d1 := Form(s.g, o.v), ip := m.ip + |t.words| + |y.words| + 4);
      AtAnyD1(s, m.(ip := m.ip + |t.words| + |y.words| + 4), no, m1.d1);
      var k := SimTail(s, m1, e.no, y.requests, y.indirect, fuel);
      AgreesTail(s.g, Eval(s.g, e.no, s.env, fuel), m, n, m1, k, fuel);
      n := n + k;
    }
  }

  /** A run up to a place of the same lambda, and from there to where that lambda returns. */
  lemma AgreesTail(g: Globals, o: Outcome, m: Machine, n: nat, m1: Machine, k: nat, fuel: nat)
    requires m.Running? && m1.Running? && m.rp != [] && HasFrame(m.stack)
    requires m1 == m.(d1 := m1.d1, ip := m1.ip) && Steps(DefsOf(g), m, n) == m1
    requires Agrees(g, o, k >= fuel, Steps(DefsOf(g), m1, k), Resumed(m1, Pop(m1.stack)))
    ensures Agrees(g, o, n + k >= fuel, Steps(DefsOf(g), m, n + k), Resumed(m, Pop(m.stack)))
  {
    ResumedAnyD1(m, m1);
    hide Form, Steps, Resumed, Pop, HasFrame, Agrees;
    AgreesAnyD1(g, o, k >= fuel, Steps(DefsOf(g), m1, k), Resumed(m, Pop(m.stack)), m1.d1);
    AgreesChain(g, o, m, n, m1, k, Resumed(m, Pop(m.stack)), fuel);
  }

  lemma ResumedAnyD1(m: Machine, m1: Machine)
    requires m.Running? && m1.Running? && m.rp != [] && HasFrame(m.stack)
    requires m1 == m.(d1 := m1.d1, ip := m1.ip)
    ensures HasFrame(m1.stack) && m1.rp == m.rp && Resumed(m, Pop(m.stack)).Running?
    ensures Resumed(m1, Pop(m1.stack)) == Resumed(m, Pop(m.stack)).(d1 := m1.d1)
  {
  }

  lemma JumpLeads(m: Machine, k: nat)
    requires CodeAt(m, [Op(BRA), Long(k)]) && k > 0 && LeadsToRet(m.code.words, m.ip + k)
    ensures LeadsToRet(m.code.words, m.ip)
  {
    assert m.code.words[m.ip] == [Op(BRA), Long(k)][0];
    assert m.code.words[m.ip + 1] == [Op(BRA), Long(k)][1];
  }

  lemma {:induction false} SimTailForm(s: Site, m: Machine, e: Expr, requests: seq<Symbol>, indirect: seq<nat>,
                                       fuel: nat)
    returns (n: nat)
    requires e.Call? && !IsImmediate(s.g, e, s.Scope())
    requires s.depth == 0 && s.Starts(requests, indirect) && s.At(m, s.Compiled(e, requests, indirect, true))
    requires m.rp != [] && HasFrame(m.stack)
    requires LeadsToRet(m.code.words, m.ip + |s.Compiled(e, requests, indirect, true).words|)
    ensures Agrees(s.g, Eval(s.g, e, s.env, fuel), n >= fuel, Steps(DefsOf(s.g), m, n), Resumed(m, Pop(m.stack)))
    decreases fuel, 1, e, 3
  {
    hide Eval, EvalArgs, Apply, Steps, Situated, Compile, CompileArgs, Form, Fill, CalleeFrame, Operands;
    CallEval(s.g, e, s.env, fuel);
    var c, a, inner := CallLayout(s, m, e, requests, indirect, true);
    n := SimFrame(s, m, e, requests, indirect, fuel, true);
    match Operands(s.g, e, s.env, fuel)
    case Vals(ws) =>
      var m1 := Steps(DefsOf(s.g), m, n);
      assert CodeAt(m1, [Op(TAIL)]);
      var k := SimTailCall(s.g, m1, ws[0], ws[1..], m.stack, fuel);
      Chain(DefsOf(s.g), m, n, m1, k);
      n := n + k;
    case _ =>
  }

  lemma DroppedFrame(g: Globals, stack: seq<Cell>, fv: Value, vs: seq<Value>, own: seq<Cell>)
    requires CalleeFrame(g, stack, fv, vs, own) && HasFrame(own)
    ensures HasFrame(stack) && Pop(stack) == own && CalleeFrame(g, DropCaller(stack), fv, vs, Pop(own))
  {
    CalleeFrameParts(g, stack, fv, vs, own);
    hide Form;
    assert stack[..FrameSize(|vs|)] == [Form(g, fv), IntC(|vs|)] + Forms(g, vs);
  }

  /** A tail call replaces the running frame and returns where the running lambda would. */
  lemma {:induction false} SimTailCall(g: Globals, m: Machine, fv: Value, vs: seq<Value>, own: seq<Cell>, fuel: nat)
    returns (n: nat)
    requires CodeAt(m, [Op(TAIL)]) && CalleeFrame(g, m.stack, fv, vs, own)
    requires m.rp != [] && HasFrame(own) && LeadsToRet(m.code.words, m.ip + 1)
    ensures Agrees(g, Apply(g, fv, vs, fuel), n >= fuel, Steps(DefsOf(g), m, n), Resumed(m, Pop(own)))
    decreases fuel, 0, 2
  {
    if fv.Closure? {
      n := SimTailClosure(g, m, fv, vs, own, fuel);
    } else if fv.PrimV? {
      n := SimTailPrim(g, m, fv, vs, own, fuel);
    } else {
      CalleeFrameParts(g, m.stack, fv, vs, own);
      SingleStep(DefsOf(g), m, TAIL);
      n := 1;
    }
  }

  /** The step of a tail call of a library procedure, which only pops the callee's frame. */
  lemma TailPrimStep(g: Globals, m: Machine, p: Prim, vs: seq<Value>, own: seq<Cell>)
    requires CodeAt(m, [Op(TAIL)]) && CalleeFrame(g, m.stack, PrimV(p), vs, own)
    ensures match ApplyPrim(p, vs) {
              case Val(v) => Steps(DefsOf(g), m, 1) == m.(d1 := Form(g, v), stack := own, ip := m.ip + 1)
              case Err => Steps(DefsOf(g), m, 1) == Thrown
              case Timeout => false
            }
  {
    assert Form(g, PrimV(p)) == PrimC(p);
    CalleeFrameParts(g, m.stack, PrimV(p), vs, own);
    hide Form, Steps, CalleeFrame, CallPrim, ApplyPrim, DefsOf;
    SingleStep(DefsOf(g), m, TAIL);
    PrimAgrees(g, p, vs);
  }

  lemma ReturnsResumed(g: Globals, m: Machine, m1: Machine, v: Value, own: seq<Cell>, late: bool)
    requires m.Running? && m.rp != [] && HasFrame(own) && m1 == m.(d1 := Form(g, v), stack := own, ip := m.ip + 1)
    ensures HasFrame(m1.stack) && Resumed(m, Pop(own)).Running?
    ensures Agrees(g, Val(v), late, ReturnTo(m1), Resumed(m, Pop(own)))
  {
    hide Form;
  }

  lemma SimTailPrim(g: Globals, m: Machine, fv: Value, vs: seq<Value>, own: seq<Cell>, fuel: nat)
    returns (n: nat)
    requires m.Running? && m.rp != [] && HasFrame(own) && LeadsToRet(m.code.words, m.ip + 1)
    requires fv.PrimV? && CodeAt(m, [Op(TAIL)]) && CalleeFrame(g, m.stack, fv, vs, own)
    ensures Agrees(g, Apply(g, fv, vs, fuel), n >= fuel, Steps(DefsOf(g), m, n), Resumed(m, Pop(own)))
  {
    assert Resumed(m, Pop(own)).Running? && Apply(g, fv, vs, fuel) == ApplyPrim(fv.p, vs);
    hide Form, Steps, CalleeFrame, LeadsToRet, ApplyPrim, Apply, DefsOf, CodeAt, HasFrame, Pop, ReturnTo, Agrees;
    hide Resumed;
    TailPrimStep(g, m, fv.p, vs, own);
    n := 1;
    var o := ApplyPrim(fv.p, vs);
    if o.Val? {
      var m1 := m.(d1 := Form(g, o.v), stack := own, ip := m.ip + 1);
      ReturnsResumed(g, m, m1, o.v, own, true);
      var k := ReachRet(DefsOf(g), m1);
      Chain(DefsOf(g), m, 1, m1, k);
      n := 1 + k;
      ReturnsResumed(g, m, m1, o.v, own, n >= fuel);
    } else {
      ThrownAgrees(g, n >= fuel, Resumed(m, Pop(own)));
    }
  }

  lemma TailClosureStep(g: Globals, m: Machine, c: Value, vs: seq<Value>, own: seq<Cell>)
    requires c.Closure? && CodeAt(m, [Op(TAIL)]) && CalleeFrame(g, m.stack, c, vs, own) && HasFrame(own)
    ensures var cell := Form(g, c); HasFrame(m.stack) && HasFrame(Pop(m.stack)) && (cell.CodeC? || cell.LambdaC?)
    ensures HasFrame(DropCaller(m.stack)) && CalleeFrame(g, DropCaller(m.stack), c, vs, Pop(own))
    ensures var cell := Form(g, c);
            Steps(DefsOf(g), m, 1) == if |vs| != |c.params| then Thrown
                                      else Enter(m.(stack := DropCaller(m.stack)), cell.code, StartEp(cell, m.ep))
  {
    CalleeFrameParts(g, m.stack, c, vs, own);
    StartCarries(g, c, m.ep);
    DroppedFrame(g, m.stack, c, vs, own);
    CalleeFrameParts(g, DropCaller(m.stack), c, vs, Pop(own));
    hide Form, CompileLambda, CalleeFrame, Carried, DefsOf, Steps, DropCaller;
    SingleStep(DefsOf(g), m, TAIL);
  }

  lemma {:induction false} SimTailClosure(g: Globals, m: Machine, fv: Value, vs: seq<Value>, own: seq<Cell>, fuel: nat)
    returns (n: nat)
    requires m.Running? && m.rp != [] && HasFrame(own)
    requires fv.Closure? && CodeAt(m, [Op(TAIL)]) && CalleeFrame(g, m.stack, fv, vs, own)
    ensures Agrees(g, Apply(g, fv, vs, fuel), n >= fuel, Steps(DefsOf(g), m, n), Resumed(m, Pop(own)))
    decreases fuel, 0, 1
  {
    hide Form, Steps, CalleeFrame, DefsOf, CodeAt, Enter, StartEp, DropCaller, HasFrame, Pop, Apply, Agrees;
    TailClosureStep(g, m, fv, vs, own);
    ClosureApplied(g, fv, vs, fuel);
    if |vs| != |fv.params| {
      n := 1;
      ThrownAgrees(g, n >= fuel, Resumed(m, Pop(own)));
    } else if fuel == 0 {
      n := 0;
      RunningAgrees(g, m, Resumed(m, Pop(own)));
    } else {
      var dropped := m.(stack := DropCaller(m.stack));
      var m1, k := SimEntry(g, dropped, fv, vs, Pop(own), m.ep, fuel);
      AgreesAfter(g, Apply(g, fv, vs, fuel), m, m1, k, Resumed(m, Pop(own)), fuel);
      n := 1 + k;
    }
  }

  // ----- Main results -----

  /** The machine as initialised: an empty frame marks the bottom of the parameter stack. */
  function Start(g: Globals, e: Expr): Machine {
    Running(NilC, Program(g, e), 0, [NilC, IntC(0)], [], [])
  }

  /** What a run of a whole program must come to. */
  predicate Ends(g: Globals, o: Outcome, late: bool, m: Machine) {
    match o
    case Val(v) => m == Halted(Form(g, v))
    case Err => m == Thrown
    case Timeout => m.Running? && late
  }

  lemma AgreesEnds(g: Globals, o: Outcome, late: bool, m: Machine, target: Machine)
    requires target.Running? && Agrees(g, o, late, m, target)
    ensures o.Val? ==> m == target.(d1 := Form(g, o.v))
    ensures !o.Val? ==> Ends(g, o, late, m)
  {
    hide Form;
  }

  lemma SimProgram(g: Globals, e: Expr, fuel: nat) returns (n: nat)
    ensures Ends(g, Eval(g, e, [], fuel), n >= fuel, Steps(DefsOf(g), Start(g, e), n))
  {
    hide Eval, Steps, Compile, Form, DefsOf, Program, Start, CodeAt, Sound, Situated, Covered, Agrees, Ends;
    var c := Compile(g, e, [], 0, [], [], false);
    var s := Site(g, [], 0, c.requests, c.indirect);
    var m := Start(g, e);
    ProgramStarts(g, e);
    n := Simulate(s, m, e, [], [], fuel);
    var o := Eval(g, e, [], fuel);
    AgreesEnds(g, o, n >= fuel, Steps(DefsOf(g), m, n), m.(ip := m.ip + |c.words|));
    if o.Val? {
      var m1 := m.(d1 := Form(g, o.v), ip := |c.words|);
      ProgramReturns(g, e, Form(g, o.v));
      Chain(DefsOf(g), m, n, m1, 1);
      n := n + 1;
      HaltedEnds(g, o.v, n >= fuel);
    }
  }

  lemma HaltedEnds(g: Globals, v: Value, late: bool)
    ensures Ends(g, Val(v), late, Halted(Form(g, v)))
  {
    hide Form;
  }

  /** The program's code is that of the expression and a return. */
  lemma ProgramStarts(g: Globals, e: Expr)
    ensures var c, m := Compile(g, e, [], 0, [], [], false), Start(g, e);
            var s := Site(g, [], 0, c.requests, c.indirect);
            && m.Running? && m.ip == 0 && s.Starts([], []) && s.At(m, s.Compiled(e, [], [], false))
            && s.Compiled(e, [], [], false) == c
            && CodeAt(m.(ip := |c.words|), [Op(RET)])
  {
    var c, m := Compile(g, e, [], 0, [], [], false), Start(g, e);
    var s := Site(g, [], 0, c.requests, c.indirect);
    assert s.Scope() == [];
    assert m.code.words == c.words + [Op(RET)];
    hide Compile, Form;
    assert CodeAt(m, c.words + [Op(RET)]);
    CodeSplit(m, c.words, [Op(RET)]);
  }

  lemma ProgramReturns(g: Globals, e: Expr, v: Cell)
    ensures Start(g, e).Running?
    ensures Steps(DefsOf(g), Start(g, e).(d1 := v, ip := |Compile(g, e, [], 0, [], [], false).words|), 1) == Halted(v)
  {
    hide Compile, Form, DefsOf;
    ProgramStarts(g, e);
    var m1 := Start(g, e).(d1 := v, ip := |Compile(g, e, [], 0, [], [], false).words|);
    assert CodeAt(m1, [Op(RET)]);
    SingleStep(DefsOf(g), m1, RET);
  }

  lemma {:induction false} StoppedStays(defs: map<Symbol, Cell>, m: Machine, n: nat)
    requires !m.Running?
    ensures Steps(defs, m, n) == m
  {
    if n > 0 { StoppedStays(defs, m, n - 1); }
  }

  /** A machine that stops does so in one state, and is running before and stopped after. */
  lemma StopsOnce(defs: map<Symbol, Cell>, m: Machine, a: nat, b: nat)
    requires !Steps(defs, m, a).Running?
    ensures b >= a ==> Steps(defs, m, b) == Steps(defs, m, a)
    ensures !Steps(defs, m, b).Running? ==> Steps(defs, m, b) == Steps(defs, m, a)
  {
    if b >= a {
      StepsAdd(defs, m, a, b - a);
      StoppedStays(defs, Steps(defs, m, a), b - a);
    } else if !Steps(defs, m, b).Running? {
      StepsAdd(defs, m, b, a - b);
      StoppedStays(defs, Steps(defs, m, b), a - b);
    }
  }

  ghost predicate Reaches(g: Globals, e: Expr, end: Machine) {
    exists n: nat :: Steps(DefsOf(g), Start(g, e), n) == end
  }

  ghost predicate Evaluates(g: Globals, e: Expr, o: Outcome) {
    exists fuel: nat :: Eval(g, e, [], fuel) == o
  }

  /** Compiled programs halt with exactly the value the evaluator gives, throw exactly when
      it errs, and run for ever exactly when it does. */
  lemma CompilerCorrect(g: Globals, e: Expr, end: Machine)
    requires !end.Running?
    ensures Reaches(g, e, end) <==>
            (end.Thrown? && Evaluates(g, e, Err))
            || exists v :: end == Halted(Form(g, v)) && Evaluates(g, e, Val(v))
  {
    hide Eval, Steps, Form, Start, DefsOf;
    if Reaches(g, e, end) {
      var n: nat :| Steps(DefsOf(g), Start(g, e), n) == end;
      var k := SimProgram(g, e, n + 1);
      StopsOnce(DefsOf(g), Start(g, e), n, k);
      var o := Eval(g, e, [], n + 1);
      assert Evaluates(g, e, o);
      assert o.Val? ==> end == Halted(Form(g, o.v)) && Evaluates(g, e, Val(o.v));
    }
    if end.Thrown? && Evaluates(g, e, Err) {
      var fuel: nat :| Eval(g, e, [], fuel) == Err;
      var k := SimProgram(g, e, fuel);
    }
    forall v | end == Halted(Form(g, v)) && Evaluates(g, e, Val(v))
      ensures Reaches(g, e, end)
    {
      var fuel: nat :| Eval(g, e, [], fuel) == Val(v);
      var k := SimProgram(g, e, fuel);
    }
  }

  /** Tail calls use no stack: a call of a closure in tail position leaves the return stack
      as it is, and the callee's frame takes the place of the caller's. */
  lemma TailKeepsStacks(defs: map<Symbol, Cell>, m: Machine)
    requires CodeAt(m, [Op(TAIL)]) && HasFrame(m.stack) && HasFrame(Pop(m.stack))
    requires m.stack[0].CodeC? || m.stack[0].LambdaC?
    ensures var m' := Step(defs, m);
            m'.Running? ==>
              && m'.rp == m.rp
              && |m'.stack| == |m.stack| - FrameSize(Pop(m.stack)[1].i)
              && HasFrame(DropCaller(m.stack)) && Pop(DropCaller(m.stack)) == Pop(Pop(m.stack))
  {
    assert m.code.words[m.ip] == [Op(TAIL)][0];
    var d := DropCaller(m.stack);
    assert d[1] == m.stack[1];
  }

  /** TAIL against CALL and RET: the same lambda body, compiled either way, reaches the same machine, which is
      that of the return to the caller with the evaluator's value, or the fault where the evaluator errs. */
  lemma TailChangesNothing(s: Site, m1: Machine, m2: Machine, e: Expr, requests: seq<Symbol>, indirect: seq<nat>,
                           fuel: nat)
    returns (n1: nat, n2: nat)
    requires s.depth == 0 && s.Starts(requests, indirect) && !Eval(s.g, e, s.env, fuel).Timeout?
    requires s.At(m1, s.Compiled(e, requests, indirect, true))
    requires s.At(m2, s.Compiled(e, requests, indirect, false))
    requires m1.stack == m2.stack && m1.rp == m2.rp && m1.rp != [] && HasFrame(m1.stack)
    requires LeadsToRet(m1.code.words, m1.ip + |s.Compiled(e, requests, indirect, true).words|)
    requires LeadsToRet(m2.code.words, m2.ip + |s.Compiled(e, requests, indirect, false).words|)
    ensures Steps(DefsOf(s.g), m1, n1) == Steps(DefsOf(s.g), m2, n2)
    ensures Agrees(s.g, Eval(s.g, e, s.env, fuel), false, Steps(DefsOf(s.g), m1, n1), Resumed(m1, Pop(m1.stack)))
  {
    hide Eval, Steps, Situated, Compile, Form, CodeAt, Covered, DefsOf, LeadsToRet, HasFrame, Sound;
    n1 := SimTail(s, m1, e, requests, indirect, fuel);
    n2 := Simulate(s, m2, e, requests, indirect, fuel);
    var o := Eval(s.g, e, s.env, fuel);
    if o.Val? {
      var m := m2.(d1 := Form(s.g, o.v), ip := m2.ip + |s.Compiled(e, requests, indirect, false).words|);
      var k := ReachRet(DefsOf(s.g), m);
      Chain(DefsOf(s.g), m2, n2, m, k);
      n2 := n2 + k;
    }
  }
}
