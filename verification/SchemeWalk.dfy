/** The compiler as it runs: one pass that appends to growing buffers, patches branch
    operands, and keeps a static stack of frames to address variables by. */
module SchemeWalk {
  import opened Wrappers
  import opened Scheme
  import opened SchemeMachine
  import opened SchemeCode

  /** A frame the running code will have pushed: of a lambda, or of a call being built. */
  datatype Level = Level(vars: Option<seq<Symbol>>, offset: nat)

  /** The bottom of the stack is a mark; every frame above adds its words. */
  predicate IsStack(fs: seq<Level>) {
    && |fs| > 0
    && fs[|fs| - 1] == Level(None, 0)
    && forall k :: 0 <= k < |fs| - 1 ==> fs[k].offset > fs[k + 1].offset
  }

  function ScopeIn(fs: seq<Level>): seq<seq<Symbol>> {
    if fs == [] then []
    else if fs[0].vars.Some? then [fs[0].vars.value] + ScopeIn(fs[1..])
    else ScopeIn(fs[1..])
  }

  /** Where the innermost lambda's frame starts. */
  function BaseOf(fs: seq<Level>): nat {
    if fs == [] then 0 else if fs[0].vars.Some? then fs[0].offset else BaseOf(fs[1..])
  }

  lemma {:induction false} BaseBelow(fs: seq<Level>)
    requires IsStack(fs)
    ensures BaseOf(fs) <= fs[0].offset
  {
    if |fs| == 1 {
      assert BaseOf(fs[1..]) == 0;
    } else if fs[0].vars.None? {
      assert IsStack(fs[1..]);
      BaseBelow(fs[1..]);
    }
  }

  function DepthOf(fs: seq<Level>): nat
    requires IsStack(fs)
  {
    BaseBelow(fs);
    fs[0].offset - BaseOf(fs)
  }

  lemma {:induction false} StackTails(fs: seq<Level>, k: nat)
    requires IsStack(fs) && k < |fs|
    ensures IsStack(fs[k..]) && (fs[k].offset == 0 <==> k == |fs| - 1)
    decreases |fs| - k
  {
    if k < |fs| - 1 {
      StackTails(fs, k + 1);
    }
  }

  /** The buffers of one lambda under compilation. */
  class Context {
    var code: seq<Word>
    var requests: seq<Symbol>
    var indirect: seq<nat>

    constructor ()
      ensures code == [] && requests == [] && indirect == []
    {
      code, requests, indirect := [], [], [];
    }

    method Append(op: Opcode, w: Word)
      modifies this`code
      ensures code == old(code) + [Op(op), w]
    {
      code := code + [Op(op)];
      code := code + [w];
    }

    method Patch(at: nat, n: int)
      requires at < |code|
      modifies this`code
      ensures code == old(code)[at := Long(n)]
    {
      code := code[at := Long(n)];
    }

    /** The place of an outer variable in the closure's environment, added if new. */
    method Request(x: Symbol) returns (index: nat)
      modifies this`requests
      ensures x in AddNew(old(requests), x) && index == Position(old(requests), x)
      ensures requests == AddNew(old(requests), x)
    {
      AddNewHas(requests, x);
      index := 0;
      while index < |requests| && requests[index] != x
        invariant 0 <= index <= |requests| && requests == old(requests)
        invariant x !in requests[..index]
      {
        index := index + 1;
      }
      FirstIndex(AddNew(requests, x), x, index);
      if index == |requests| {
        assert requests[..index] == requests;
        requests := requests + [x];
      } else {
        assert x == requests[index];
      }
    }

    method Box(offset: nat)
      modifies this`indirect
      ensures indirect == AddNew(old(indirect), offset)
    {
      if offset !in indirect {
        indirect := indirect + [offset];
      }
    }
  }

  lemma {:induction false} FirstIndex(xs: seq<Symbol>, x: Symbol, i: nat)
    requires i < |xs| && xs[i] == x && x !in xs[..i]
    ensures IndexOf(xs, x) == i
    decreases i
  {
    if i > 0 {
      assert xs[0] in xs[..i] && xs[1..][i - 1] == x && xs[1..][..i - 1] == xs[1..i];
      assert forall y :: y in xs[1..i] ==> y in xs[..i];
      FirstIndex(xs[1..], x, i - 1);
    }
  }

  const FOUND_IN_PARENT := -2

  class Compiler {
    const g: Globals
    var frames: seq<Level>

    constructor (g: Globals)
      ensures this.g == g && frames == [Level(None, 0)]
    {
      this.g := g;
      frames := [Level(None, 0)];
    }

    ghost predicate Valid()
      reads this
    {
      IsStack(frames)
    }

    ghost function Scope(): seq<seq<Symbol>>
      reads this
    {
      ScopeIn(frames)
    }

    ghost function Depth(): nat
      reads this
      requires Valid()
    {
      DepthOf(frames)
    }

    method PushFrame(vars: Option<seq<Symbol>>, argc: nat)
      requires Valid()
      modifies this`frames
      ensures Valid() && frames == [Level(vars, old(frames)[0].offset + FrameSize(argc))] + old(frames)
    {
      frames := [Level(vars, frames[0].offset + FrameSize(argc))] + frames;
    }

    method PopFrame()
      requires Valid() && |frames| > 1
      modifies this`frames
      ensures Valid() && frames == old(frames)[1..]
    {
      StackTails(frames, 1);
      frames := frames[1..];
    }

    method GetIndex(vars: seq<Symbol>, x: Symbol) returns (index: int)
      ensures index == if x in vars then IndexOf(vars, x) else -1
    {
      index := 0;
      while index < |vars|
        invariant 0 <= index <= |vars| && x !in vars[..index]
      {
        if vars[index] == x {
          FirstIndex(vars, x, index);
          return;
        }
        index := index + 1;
      }
      assert vars[..index] == vars;
      index := -1;
    }

    /** Searches the static frames from the top: a slot relative to the top of the stack if
        the running lambda binds the symbol, a mark if an outer one does. */
    method FindLocal(x: Symbol) returns (offset: int, spOffset: nat)
      requires Valid()
      ensures InScope(Scope(), x) && x in Scope()[0] ==>
        offset == Depth() + 2 + IndexOf(Scope()[0], x) && spOffset == Depth()
      ensures InScope(Scope(), x) && x !in Scope()[0] ==> offset == FOUND_IN_PARENT
      ensures !InScope(Scope(), x) ==> offset == -1
    {
      var isSelf := true;
      var top := frames[0].offset;
      var p := 0;
      assert frames[0..] == frames;
      while true
        invariant 0 <= p < |frames|
        invariant isSelf ==> ScopeIn(frames[p..]) == Scope() && BaseOf(frames[p..]) == BaseOf(frames)
        invariant !isSelf ==> Scope() != [] && x !in Scope()[0]
        invariant !isSelf ==> (InScope(Scope(), x) <==> InScope(ScopeIn(frames[p..]), x))
        decreases |frames| - p
      {
        StackTails(frames, p);
        assert frames[p..][1..] == frames[p + 1..];
        if frames[p].vars.None? {
          if frames[p].offset == 0 {
            assert frames[p..] == [frames[p]];
            return -1, 0;
          }
        } else {
          InScopeCons(frames[p].vars.value, ScopeIn(frames[p + 1..]), x);
          var index := GetIndex(frames[p].vars.value, x);
          if index >= 0 {
            if isSelf {
              BaseBelow(frames);
              return top - frames[p].offset + index + 2, top - frames[p].offset;
            }
            return FOUND_IN_PARENT, 0;
          }
          isSelf := false;
        }
        p := p + 1;
      }
    }

    /** The word that addresses a symbol, asking for outer variables as needed. */
    method ItemFor(cx: Context, x: Symbol) returns (w: Word, spOffset: nat)
      requires Valid()
      modifies cx`requests
      ensures ItemOf(g, Scope(), Depth(), old(cx.requests), x) == Item(w, cx.requests)
      ensures w.Rel? && !w.r.inEnv ==> spOffset == Depth()
    {
      var offset;
      offset, spOffset := FindLocal(x);
      if offset >= 0 {
        return Rel(Ref(offset, false)), spOffset;
      }
      if offset == FOUND_IN_PARENT {
        var index := cx.Request(x);
        return Rel(Ref(index, true)), 0;
      }
      if x in g.modules {
        return Lit(PrimC(g.modules[x])), 0;
      }
      return Global(x), 0;
    }

    /** Where a captured variable is found here; a slot of the own frame has to be boxed. */
    method ClosureRef(cx: Context, x: Symbol) returns (ref: Ref)
      requires Valid()
      modifies cx`requests, cx`indirect
      ensures var it := ItemOf(g, Scope(), Depth(), old(cx.requests), x);
              && cx.requests == it.requests
              && ref == (if it.word.Rel? then it.word.r else Ref(0, false))
              && (it.word.Rel? && !ref.inEnv ==>
                   ref.offset >= Depth() && cx.indirect == AddNew(old(cx.indirect), ref.offset - Depth()))
              && (!it.word.Rel? || ref.inEnv ==> cx.indirect == old(cx.indirect))
    {
      var w, spOffset := ItemFor(cx, x);
      if w.Rel? {
        if !w.r.inEnv {
          cx.Box(w.r.offset - spOffset);
        }
        return w.r;
      }
      return Ref(0, false);
    }

    /** The references of a closure to be created here. */
    method ToClosure(cx: Context, wanted: seq<Symbol>) returns (refs: seq<Ref>)
      requires Valid()
      modifies cx`requests, cx`indirect
      ensures ClosureRefs(g, wanted, Scope(), Depth(), old(cx.requests), old(cx.indirect)) ==
              Refs(refs, cx.requests, cx.indirect)
    {
      hide ClosureRefs, ItemOf, ScopeIn, DepthOf;
      ghost var scope, depth := Scope(), Depth();
      ghost var goal := ClosureRefs(g, wanted, scope, depth, cx.requests, cx.indirect);
      refs := [];
      assert wanted[0..] == wanted;
      for i := 0 to |wanted|
        invariant |refs| == i
        invariant Joined(goal, refs, ClosureRefs(g, wanted[i..], scope, depth, cx.requests, cx.indirect))
      {
        assert wanted[i..][0] == wanted[i] && wanted[i..][1..] == wanted[i + 1..];
        RefsStep(g, wanted[i..], scope, depth, cx.requests, cx.indirect);
        ghost var before := ClosureRefs(g, wanted[i..], scope, depth, cx.requests, cx.indirect);
        var ref := ClosureRef(cx, wanted[i]);
        ghost var rest := ClosureRefs(g, wanted[i + 1..], scope, depth, cx.requests, cx.indirect);
        JoinedStep(goal, refs, ref, before, rest);
        refs := refs + [ref];
      }
      assert wanted[|wanted|..] == [];
      RefsEnd(g, scope, depth, cx.requests, cx.indirect);
      assert refs + [] == refs;
    }

    method LoadItem(cx: Context, x: Symbol)
      requires Valid()
      modifies cx
      ensures var r := Compile(g, Var(x), Scope(), Depth(), old(cx.requests), old(cx.indirect), false);
              Emitted(cx, old(cx.code), r)
    {
      var w, _ := ItemFor(cx, x);
      cx.Append(LoadOp(w), w);
    }

    /** The buffers have received what r holds. */
    ghost predicate Emitted(cx: Context, before: seq<Word>, r: Gen)
      reads cx
    {
      cx.code == before + r.words && cx.requests == r.requests && cx.indirect == r.indirect
    }

    lemma EmittedJoin(cx: Context, before: seq<Word>, mid: seq<Word>, c: Gen, r: Gen)
      requires mid == before + c.words && Emitted(cx, mid, r)
      ensures Emitted(cx, before, Gen(c.words + r.words, r.requests, r.indirect))
    {
    }

    /** Compiles one expression; false stands for the compiler giving up with a message. */
    method Walk(cx: Context, e: Expr, tail: bool) returns (ok: bool)
      requires Valid()
      modifies this`frames, cx
      ensures ok == Accepted(e)
      ensures ok ==> frames == old(frames)
      ensures ok ==> Emitted(cx, old(cx.code),
        Compile(g, e, Scope(), Depth(), old(cx.requests), old(cx.indirect), tail))
      decreases e, 1
    {
      match e
      case Num(i) =>
        cx.Append(LOAD, Lit(IntC(i)));
        ok := true;
      case Flag(b) =>
        cx.Append(LOAD, Lit(BoolC(b)));
        ok := true;
      case Quote(d) =>
        cx.Append(LOAD, Lit(InjectCell(d)));
        ok := true;
      case Var(x) =>
        LoadItem(cx, x);
        ok := true;
      case If(_, _, _) => ok := WalkIf(cx, e, tail);
      case Lambda(_, _, _) => ok := WalkLambda(cx, e);
      case Call(_, _) => ok := WalkCall(cx, e, tail);
    }

    /** A conditional: both branch operands are patched once their targets are known. */
    method WalkIf(cx: Context, e: Expr, tail: bool) returns (ok: bool)
      requires Valid() && e.If?
      modifies this`frames, cx
      ensures ok == Accepted(e)
      ensures ok ==> frames == old(frames)
      ensures ok ==> Emitted(cx, old(cx.code),
        Compile(g, e, Scope(), Depth(), old(cx.requests), old(cx.indirect), tail))
      decreases e, 0
    {
      hide Compile, ScopeIn, DepthOf, Accepted;
      IfCode(g, e, Scope(), Depth(), cx.requests, cx.indirect, tail);
      ghost var before := cx.code;
      ghost var t := Compile(g, e.test, Scope(), Depth(), cx.requests, cx.indirect, false);
      ok := Walk(cx, e.test, false);
      if !ok { return; }
      cx.Append(BF, Long(0));
      var bf := |cx.code| - 1;
      ghost var y := Compile(g, e.yes, Scope(), Depth(), cx.requests, cx.indirect, tail);
      ok := Walk(cx, e.yes, tail);
      if !ok { return; }
      cx.Append(BRA, Long(0));
      var bra := |cx.code| - 1;
      ghost var n := Compile(g, e.no, Scope(), Depth(), cx.requests, cx.indirect, tail);
      ok := Walk(cx, e.no, tail);
      if !ok { return; }
      Patched(before, t.words, y.words, n.words, cx.code, bf, bra);
      cx.Patch(bf, bra - bf + 2);
      cx.Patch(bra, |cx.code| - bra + 1);
    }

    method WalkInit(cx: Context, init: seq<Expr>) returns (ok: bool)
      requires Valid() && Depth() == 0
      modifies this`frames, cx
      ensures ok == forall i :: 0 <= i < |init| ==> Accepted(init[i])
      ensures ok ==> frames == old(frames)
      ensures ok ==> Emitted(cx, old(cx.code), CompileInit(g, init, Scope(), old(cx.requests), old(cx.indirect)))
      decreases init, 0
    {
      hide CompileInit, Compile, ScopeIn, DepthOf, Accepted;
      ghost var before := cx.code;
      assert init[0..] == init;
      ghost var goal := CompileInit(g, init, Scope(), cx.requests, cx.indirect);
      for i := 0 to |init|
        invariant Valid() && frames == old(frames)
        invariant forall j :: 0 <= j < i ==> Accepted(init[j])
        invariant var rest := CompileInit(g, init[i..], Scope(), cx.requests, cx.indirect);
                  before + goal.words == cx.code + rest.words
                  && goal.requests == rest.requests && goal.indirect == rest.indirect
      {
        assert init[i..][0] == init[i] && init[i..][1..] == init[i + 1..];
        InitCode(g, init[i..], Scope(), cx.requests, cx.indirect);
        ghost var start := cx.code;
        ghost var a := Compile(g, init[i], Scope(), 0, cx.requests, cx.indirect, false);
        ok := Walk(cx, init[i], false);
        if !ok { return; }
        ghost var rest := CompileInit(g, init[i + 1..], Scope(), cx.requests, cx.indirect);
        assert start + (a.words + rest.words) == (start + a.words) + rest.words;
      }
      assert init[|init|..] == [];
      InitEnd(g, Scope(), cx.requests, cx.indirect);
      ok := true;
    }

    /** A lambda gets buffers of its own; what it asks for decides how it is loaded. */
    method WalkLambda(cx: Context, e: Expr) returns (ok: bool)
      requires Valid() && e.Lambda?
      modifies this`frames, cx
      ensures ok == Accepted(e)
      ensures ok ==> frames == old(frames)
      ensures ok ==> Emitted(cx, old(cx.code),
        Compile(g, e, Scope(), Depth(), old(cx.requests), old(cx.indirect), false))
      decreases e, 0
    {
      var inner := new Context();
      PushFrame(Some(e.params), |e.params|);
      LambdaLevel(old(frames), e.params);
      ghost var i := CompileInit(g, e.init, Scope(), [], []);
      ok := WalkInit(inner, e.init);
      if !ok { return; }
      assert inner.code == i.words;
      ok := Walk(inner, e.last, true);
      if !ok { return; }
      PopFrame();
      assert frames == old(frames);
      inner.code := inner.code + [Op(RET)];
      var code := Code(e.params, inner.indirect, inner.code);
      assert (code, inner.requests) == CompileLambda(g, e.params, e.init, e.last, Scope());
      if inner.requests == [] {
        cx.Append(LOAD, Lit(CodeC(code)));
      } else {
        var refs := ToClosure(cx, inner.requests);
        cx.Append(CREATE_LAMBDA, Template(code, refs));
      }
    }

    /** An arithmetic procedure with a literal second operand becomes one instruction. */
    method WalkCall(cx: Context, e: Expr, tail: bool) returns (ok: bool)
      requires Valid() && e.Call?
      modifies this`frames, cx
      ensures ok == Accepted(e)
      ensures ok ==> frames == old(frames)
      ensures ok ==> Emitted(cx, old(cx.code),
        Compile(g, e, Scope(), Depth(), old(cx.requests), old(cx.indirect), tail))
      decreases e, 0
    {
      CallCode(g, e, Scope(), Depth(), cx.requests, cx.indirect, tail);
      hide Compile, CompileArgs, ScopeIn, DepthOf, InScope;
      ghost var before := cx.code;
      ghost var c := Compile(g, e.f, Scope(), Depth(), cx.requests, cx.indirect, false);
      ok := Walk(cx, e.f, false);
      if !ok { return; }
      ghost var mid := cx.code;
      assert mid == before + c.words && cx.requests == c.requests && cx.indirect == c.indirect;
      hide Emitted;
      if e.f.Num? || e.f.Flag? || e.f.Quote? {
        return false;
      }
      var op := FindArith(e.f);
      if op.Some? && |e.args| == 2 && e.args[1].Num? {
        ghost var a := Compile(g, e.args[0], Scope(), Depth(), cx.requests, cx.indirect, false);
        ok := WalkImmediate(cx, e, op.value);
        if ok {
          EmittedJoin(cx, before, mid, c, Gen(a.words + [Op(ImmediateOp(op.value)), Long(e.args[1].i)],
                                              a.requests, a.indirect));
        }
      } else {
        ghost var a := CompileArgs(g, e.args, 0, Scope(), Depth() + FrameSize(|e.args|), cx.requests, cx.indirect);
        ok := WalkTransfer(cx, e, tail);
        if ok {
          EmittedJoin(cx, before, mid, c, Gen([Op(CREATE_FRAME), Long(|e.args|)] + a.words
                                              + [Op(if tail then TAIL else CALL)], a.requests, a.indirect));
        }
      }
    }

    method WalkImmediate(cx: Context, e: Expr, op: ArithOp) returns (ok: bool)
      requires Valid() && e.Call? && |e.args| == 2 && e.args[1].Num?
      modifies this`frames, cx
      ensures ok == forall i :: 0 <= i < |e.args| ==> Accepted(e.args[i])
      ensures ok ==> frames == old(frames)
      ensures ok ==> var a := Compile(g, e.args[0], Scope(), Depth(), old(cx.requests), old(cx.indirect), false);
                     Emitted(cx, old(cx.code), Gen(a.words + [Op(ImmediateOp(op)), Long(e.args[1].i)],
                                                   a.requests, a.indirect))
      decreases e.args, 1
    {
      assert forall i :: 0 <= i < |e.args| ==> e.args[i] == e.args[0] || e.args[i] == e.args[1];
      assert Accepted(e.args[1]);
      hide Compile, ScopeIn, DepthOf, Accepted;
      ok := Walk(cx, e.args[0], false);
      if !ok { return; }
      cx.Append(ImmediateOp(op), Long(e.args[1].i));
    }

    /** The new frame, the arguments and the transfer of a call. */
    method WalkTransfer(cx: Context, e: Expr, tail: bool) returns (ok: bool)
      requires Valid() && e.Call?
      modifies this`frames, cx
      ensures ok == forall i :: 0 <= i < |e.args| ==> Accepted(e.args[i])
      ensures ok ==> frames == old(frames)
      ensures ok ==> var a := CompileArgs(g, e.args, 0, Scope(), Depth() + FrameSize(|e.args|),
                                           old(cx.requests), old(cx.indirect));
                     Emitted(cx, old(cx.code), Gen([Op(CREATE_FRAME), Long(|e.args|)] + a.words
                                                   + [Op(if tail then TAIL else CALL)], a.requests, a.indirect))
      decreases e.args, 1
    {
      ghost var fs := frames;
      PushFrame(None, |e.args|);
      CallLevel(fs, |e.args|);
      hide Accepted, CompileArgs, ScopeIn, DepthOf;
      ghost var start := cx.code;
      ghost var a := CompileArgs(g, e.args, 0, Scope(), Depth(), cx.requests, cx.indirect);
      cx.Append(CREATE_FRAME, Long(|e.args|));
      ok := WalkArgs(cx, e.args);
      if !ok { return; }
      cx.code := cx.code + [Op(if tail then TAIL else CALL)];
      ArgJoin(start, [Op(CREATE_FRAME), Long(|e.args|)], a.words, [Op(if tail then TAIL else CALL)]);
      PopFrame();
    }

    /** Whether the callee is an arithmetic procedure of the library. */
    method FindArith(f: Expr) returns (op: Option<ArithOp>)
      requires Valid()
      ensures op.Some? <==> f.Var? && !InScope(Scope(), f.x) && f.x in g.modules && g.modules[f.x].Arith?
      ensures op.Some? ==> op.value == g.modules[f.x].op
    {
      if f.Var? {
        var offset, _ := FindLocal(f.x);
        if offset == -1 && f.x in g.modules && g.modules[f.x].Arith? {
          return Some(g.modules[f.x].op);
        }
      }
      return None;
    }

    method WalkArgs(cx: Context, args: seq<Expr>) returns (ok: bool)
      requires Valid()
      modifies this`frames, cx
      ensures ok == forall i :: 0 <= i < |args| ==> Accepted(args[i])
      ensures ok ==> frames == old(frames)
      ensures ok ==> Emitted(cx, old(cx.code),
        CompileArgs(g, args, 0, Scope(), Depth(), old(cx.requests), old(cx.indirect)))
      decreases args, 0
    {
      hide CompileArgs, Compile, ScopeIn, DepthOf, Accepted;
      ghost var before := cx.code;
      ghost var goal := CompileArgs(g, args, 0, Scope(), Depth(), cx.requests, cx.indirect);
      assert args[0..] == args;
      for i := 0 to |args|
        invariant Valid() && frames == old(frames)
        invariant forall j :: 0 <= j < i ==> Accepted(args[j])
        invariant var rest := CompileArgs(g, args[i..], i, Scope(), Depth(), cx.requests, cx.indirect);
                  before + goal.words == cx.code + rest.words
                  && goal.requests == rest.requests && goal.indirect == rest.indirect
      {
        assert args[i..][0] == args[i] && args[i..][1..] == args[i + 1..];
        ArgsCode(g, args[i..], i, Scope(), Depth(), cx.requests, cx.indirect);
        ghost var start := cx.code;
        ghost var a := Compile(g, args[i], Scope(), Depth(), cx.requests, cx.indirect, false);
        ok := Walk(cx, args[i], false);
        if !ok { return; }
        cx.Append(STORE, Long(2 + i));
        ghost var rest := CompileArgs(g, args[i + 1..], i + 1, Scope(), Depth(), cx.requests, cx.indirect);
        ArgJoin(start, a.words, [Op(STORE), Long(2 + i)], rest.words);
      }
      assert args[|args|..] == [];
      ArgsEnd(g, |args|, Scope(), Depth(), cx.requests, cx.indirect);
      ok := true;
    }
  }

  /** The code of a conditional, and when it is accepted. */
  lemma IfCode(g: Globals, e: Expr, scope: seq<seq<Symbol>>, depth: nat, requests: seq<Symbol>, indirect: seq<nat>,
               tail: bool)
    requires e.If?
    ensures var t := Compile(g, e.test, scope, depth, requests, indirect, false);
            var y := Compile(g, e.yes, scope, depth, t.requests, t.indirect, tail);
            var n := Compile(g, e.no, scope, depth, y.requests, y.indirect, tail);
            Compile(g, e, scope, depth, requests, indirect, tail) ==
            Gen(t.words + [Op(BF), Long(|y.words| + 4)] + y.words + [Op(BRA), Long(|n.words| + 2)] + n.words,
                n.requests, n.indirect)
    ensures Accepted(e) <==> Accepted(e.test) && Accepted(e.yes) && Accepted(e.no)
  {
  }

  /** With the operands filled in, the branches go to the second branch and past it. */
  lemma Patched(before: seq<Word>, t: seq<Word>, y: seq<Word>, n: seq<Word>, code: seq<Word>, bf: nat, bra: nat)
    requires code == before + t + [Op(BF), Long(0)] + y + [Op(BRA), Long(0)] + n
    requires bf == |before| + |t| + 1 && bra == bf + |y| + 2
    ensures code[bf := Long(bra - bf + 2)][bra := Long(|code| - bra + 1)] ==
            before + (t + [Op(BF), Long(|y| + 4)] + y + [Op(BRA), Long(|n| + 2)] + n)
  {
  }

  lemma ArgsCode(g: Globals, args: seq<Expr>, done: nat, scope: seq<seq<Symbol>>, depth: nat, requests: seq<Symbol>,
                 indirect: seq<nat>)
    requires args != []
    ensures var a := Compile(g, args[0], scope, depth, requests, indirect, false);
            var rest := CompileArgs(g, args[1..], done + 1, scope, depth, a.requests, a.indirect);
            CompileArgs(g, args, done, scope, depth, requests, indirect) ==
              Gen(a.words + [Op(STORE), Long(2 + done)] + rest.words, rest.requests, rest.indirect)
  {
  }

  lemma ArgsEnd(g: Globals, done: nat, scope: seq<seq<Symbol>>, depth: nat, requests: seq<Symbol>, indirect: seq<nat>)
    ensures CompileArgs(g, [], done, scope, depth, requests, indirect) == Gen([], requests, indirect)
  {
  }

  lemma ArgJoin(start: seq<Word>, a: seq<Word>, st: seq<Word>, rest: seq<Word>)
    ensures start + (a + st + rest) == (start + a) + st + rest
  {
  }

  lemma InitCode(g: Globals, init: seq<Expr>, scope: seq<seq<Symbol>>, requests: seq<Symbol>, indirect: seq<nat>)
    requires init != []
    ensures var a := Compile(g, init[0], scope, 0, requests, indirect, false);
            var rest := CompileInit(g, init[1..], scope, a.requests, a.indirect);
            CompileInit(g, init, scope, requests, indirect) ==
              Gen(a.words + rest.words, rest.requests, rest.indirect)
  {
  }

  lemma InitEnd(g: Globals, scope: seq<seq<Symbol>>, requests: seq<Symbol>, indirect: seq<nat>)
    ensures CompileInit(g, [], scope, requests, indirect) == Gen([], requests, indirect)
  {
  }

  /** References made so far, followed by those still to make. */
  predicate Joined(goal: Refs, refs: seq<Ref>, rest: Refs) {
    goal == Refs(refs + rest.refs, rest.requests, rest.indirect)
  }

  lemma JoinedStep(goal: Refs, refs: seq<Ref>, ref: Ref, before: Refs, rest: Refs)
    requires Joined(goal, refs, before) && before == Refs([ref] + rest.refs, rest.requests, rest.indirect)
    ensures Joined(goal, refs + [ref], rest)
  {
  }

  lemma RefsEnd(g: Globals, scope: seq<seq<Symbol>>, depth: nat, requests: seq<Symbol>, indirect: seq<nat>)
    ensures ClosureRefs(g, [], scope, depth, requests, indirect) == Refs([], requests, indirect)
  {
  }

  lemma CallCode(g: Globals, e: Expr, scope: seq<seq<Symbol>>, depth: nat, requests: seq<Symbol>, indirect: seq<nat>,
                 tail: bool)
    requires e.Call?
    ensures var c := Compile(g, e.f, scope, depth, requests, indirect, false);
            Compile(g, e, scope, depth, requests, indirect, tail) ==
              if IsImmediate(g, e, scope) then
                var a := Compile(g, e.args[0], scope, depth, c.requests, c.indirect, false);
                Gen(c.words + (a.words + [Op(ImmediateOp(g.modules[e.f.x].op)), Long(e.args[1].i)]),
                    a.requests, a.indirect)
              else
                var a := CompileArgs(g, e.args, 0, scope, depth + FrameSize(|e.args|), c.requests, c.indirect);
                Gen(c.words + ([Op(CREATE_FRAME), Long(|e.args|)] + a.words + [Op(if tail then TAIL else CALL)]),
                    a.requests, a.indirect)
  {
    var c := Compile(g, e.f, scope, depth, requests, indirect, false);
    if IsImmediate(g, e, scope) {
      var a := Compile(g, e.args[0], scope, depth, c.requests, c.indirect, false);
      assert c.words + a.words + [Op(ImmediateOp(g.modules[e.f.x].op)), Long(e.args[1].i)] ==
             c.words + (a.words + [Op(ImmediateOp(g.modules[e.f.x].op)), Long(e.args[1].i)]);
    } else {
      var a := CompileArgs(g, e.args, 0, scope, depth + FrameSize(|e.args|), c.requests, c.indirect);
      assert c.words + [Op(CREATE_FRAME), Long(|e.args|)] + a.words + [Op(if tail then TAIL else CALL)] ==
             c.words + ([Op(CREATE_FRAME), Long(|e.args|)] + a.words + [Op(if tail then TAIL else CALL)]);
    }
  }

  lemma RefsStep(g: Globals, wanted: seq<Symbol>, scope: seq<seq<Symbol>>, depth: nat, requests: seq<Symbol>,
                 indirect: seq<nat>)
    requires wanted != []
    ensures var it := ItemOf(g, scope, depth, requests, wanted[0]);
            var ref := if it.word.Rel? then it.word.r else Ref(0, false);
            && (it.word.Rel? && !ref.inEnv ==> ref.offset >= depth)
            && var boxed := if it.word.Rel? && !ref.inEnv then AddNew(indirect, ref.offset - depth) else indirect;
               var rest := ClosureRefs(g, wanted[1..], scope, depth, it.requests, boxed);
               ClosureRefs(g, wanted, scope, depth, requests, indirect) ==
                 Refs([ref] + rest.refs, rest.requests, rest.indirect)
  {
  }

  lemma InScopeCons(v: seq<Symbol>, rest: seq<seq<Symbol>>, x: Symbol)
    ensures InScope([v] + rest, x) <==> x in v || InScope(rest, x)
  {
    var all := [v] + rest;
    if x in v { assert x in all[0]; }
    if InScope(rest, x) {
      var k :| 0 <= k < |rest| && x in rest[k];
      assert x in all[k + 1];
    }
    if InScope(all, x) && x !in v {
      var k :| 0 <= k < |all| && x in all[k];
      assert x in rest[k - 1];
    }
  }

  /** Pushing the frame of a lambda opens a scope with nothing above its frame. */
  lemma LambdaLevel(fs: seq<Level>, vars: seq<Symbol>)
    requires IsStack(fs)
    ensures var fs' := [Level(Some(vars), fs[0].offset + FrameSize(|vars|))] + fs;
            IsStack(fs') && ScopeIn(fs') == [vars] + ScopeIn(fs) && DepthOf(fs') == 0 && fs'[1..] == fs
  {
    var fs' := [Level(Some(vars), fs[0].offset + FrameSize(|vars|))] + fs;
    assert fs'[1..] == fs;
  }

  /** Pushing the frame of a call moves the running lambda's frame further down. */
  lemma CallLevel(fs: seq<Level>, argc: nat)
    requires IsStack(fs)
    ensures var fs' := [Level(None, fs[0].offset + FrameSize(argc))] + fs;
            IsStack(fs') && ScopeIn(fs') == ScopeIn(fs) && DepthOf(fs') == DepthOf(fs) + FrameSize(argc)
            && fs'[1..] == fs
  {
    var fs' := [Level(None, fs[0].offset + FrameSize(argc))] + fs;
    assert fs'[1..] == fs;
  }

  /** Compiles a whole program; None when it is rejected. */
  method CompileProgram(g: Globals, e: Expr) returns (r: Option<Code>)
    ensures r == if Accepted(e) then Some(Program(g, e)) else None
  {
    var c := new Compiler(g);
    var cx := new Context();
    assert c.frames[1..] == [] && ScopeIn(c.frames) == [];
    assert BaseOf(c.frames) == BaseOf(c.frames[1..]) == 0 == DepthOf(c.frames);
    var ok := c.Walk(cx, e, false);
    if !ok {
      return None;
    }
    assert cx.code == Compile(g, e, [], 0, [], [], false).words;
    cx.code := cx.code + [Op(RET)];
    return Some(Code([], cx.indirect, cx.code));
  }
}
