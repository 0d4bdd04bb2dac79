/** The parameter stack of a running program: at every step it is whole frames, one for each call that has not
    returned and one for each call being made. */
module SchemeFrames {
  import opened Wrappers
  import opened Scheme
  import opened SchemeMachine
  import opened SchemeCode
  import opened SchemeLists
  import opened SchemeRelation
  import opened SchemeSimulation

  /** For each instruction of some code, how many arguments each of the frames has that the code is making there. */
  type Shape = seq<Option<seq<nat>>>

  ghost predicate Next(shape: Shape, ip: int, open: seq<nat>) {
    0 <= ip < |shape| && shape[ip] == Some(open)
  }

  ghost predicate OperandFits(shape: Shape, ip: nat, op: Opcode, w: Word, open: seq<nat>) {
    match op
    case BF => Next(shape, ip + 2, open) && (w.Long? ==> Next(shape, ip + w.n, open))
    case BRA => w.Long? ==> Next(shape, ip + w.n, open)
    case CREATE_FRAME => w.Long? && w.n >= 0 ==> Next(shape, ip + 2, [w.n] + open)
    case STORE => Next(shape, ip + 2, open) && (w.Long? ==> open != [] && 2 <= w.n < FrameSize(open[0]))
    case _ => Next(shape, ip + 2, open)
  }

  /** The instruction can stand where these frames are being made.  A tail call replaces the frame of the code. */
  ghost predicate Fits(words: seq<Word>, shape: Shape, framed: bool, ip: nat) {
    && ip < |words| && |shape| == |words| + 1 && words[ip].Op? && shape[ip].Some?
    && var open := shape[ip].value;
    match words[ip].op
    case CALL => open != [] && Next(shape, ip + 1, open[1..])
    case TAIL => framed && |open| == 1 && Next(shape, ip + 1, [])
    case RET => open == []
    case op => ip + 1 < |words| && OperandFits(shape, ip, op, words[ip + 1], open)
  }

  /** A piece of code, with the frames being made where it starts and where it ends. */
  ghost predicate Piece(words: seq<Word>, shape: Shape, framed: bool, open: seq<nat>, out: Option<seq<nat>>) {
    && |shape| == |words| + 1 && shape[0] == Some(open) && shape[|words|] == out
    && forall ip :: 0 <= ip < |words| && shape[ip].Some? ==> Fits(words, shape, framed, ip)
  }

  ghost predicate CellFits(c: Cell)
    decreases c
  {
    match c
    case PairC(a, b) => CellFits(a) && CellFits(b)
    case CodeC(code) => CodeFits(code, true)
    case LambdaC(code, env) => CodeFits(code, true) && forall i :: 0 <= i < |env| ==> CellFits(env[i])
    case Box(v) => CellFits(v)
    case _ => true
  }

  ghost predicate WordFits(w: Word)
    decreases w
  {
    match w
    case Lit(v) => CellFits(v)
    case Template(code, _) => CodeFits(code, true)
    case _ => true
  }

  /** Code that keeps to its own frame, and so does all the code it may come to call. */
  ghost predicate CodeFits(code: Code, framed: bool)
    decreases code
  {
    && (forall i :: 0 <= i < |code.indirect| ==> 2 <= code.indirect[i] < FrameSize(|code.vars|))
    && (forall i :: 0 <= i < |code.words| ==> WordFits(code.words[i]))
    && exists shape :: Piece(code.words, shape, framed, [], None)
  }

  ghost predicate CellsFit(cs: seq<Cell>) {
    forall i :: 0 <= i < |cs| ==> CellFits(cs[i])
  }

  ghost predicate WordsFit(words: seq<Word>) {
    forall i :: 0 <= i < |words| ==> WordFits(words[i])
  }

  // --- how the stack lies

  /** The frames being made lie on top. */
  ghost predicate Over(stack: seq<Cell>, open: seq<nat>) {
    open == [] || (HasFrame(stack) && stack[1] == IntC(open[0]) && Over(Pop(stack), open[1..]))
  }

  ghost function Under(stack: seq<Cell>, open: seq<nat>): seq<Cell>
    requires Over(stack, open)
  {
    if open == [] then stack else Under(Pop(stack), open[1..])
  }

  /** The callee of a frame is the code that runs in it. */
  predicate Callee(c: Cell, code: Code) {
    c == CodeC(code) || (c.LambdaC? && c.code == code)
  }

  /** The frame at the bottom, where the collector's walk is to end. */
  const BASE: seq<Cell> := [NilC, IntC(0)]

  /** The frames the code is making, then its own, then the same for the caller it returns to. */
  ghost predicate Laid(stack: seq<Cell>, code: Code, ip: nat, rp: seq<Return>)
    decreases |rp|, 1
  {
    exists shape :: LaidBy(shape, stack, code, ip, rp)
  }

  ghost predicate LaidBy(shape: Shape, stack: seq<Cell>, code: Code, ip: nat, rp: seq<Return>)
    decreases |rp|, 0
  {
    && Piece(code.words, shape, rp != [], [], None) && ip < |shape| && shape[ip].Some?
    && Over(stack, shape[ip].value)
    && var rest := Under(stack, shape[ip].value);
    if rp == [] then rest == BASE
    else HasFrame(rest) && Callee(rest[0], code) && Laid(Pop(rest), rp[0].code, rp[0].ip + 1, rp[1..])
  }

  ghost predicate ReturnsFit(rp: seq<Return>) {
    forall i :: 0 <= i < |rp| ==> WordsFit(rp[i].code.words) && CellsFit(rp[i].ep)
  }

  ghost predicate CellsOf(m: Machine)
    requires m.Running?
  {
    CellFits(m.d1) && CellsFit(m.stack) && CellsFit(m.ep) && WordsFit(m.code.words) && ReturnsFit(m.rp)
  }

  /** What every step keeps. */
  ghost predicate Framed(m: Machine) {
    match m
    case Running(_, code, ip, stack, rp, _) => CellsOf(m) && Laid(stack, code, ip, rp)
    case Halted(c) => CellFits(c)
    case _ => true
  }

  // --- what a framed machine means for the collector

  /** The stack is frames to its end. */
  ghost predicate WholeFrames(stack: seq<Cell>)
    decreases |stack|
  {
    stack == BASE || (HasFrame(stack) && WholeFrames(Pop(stack)))
  }

  /** Every call that has not returned has a frame of its own, the latest on top. */
  ghost predicate Backed(stack: seq<Cell>, code: Code, rp: seq<Return>)
    decreases |rp|
  {
    rp == [] || exists d: nat :: FrameAt(stack, d, code) && Backed(Pop(stack[d..]), rp[0].code, rp[1..])
  }

  ghost predicate FrameAt(stack: seq<Cell>, d: nat, code: Code) {
    d <= |stack| && HasFrame(stack[d..]) && Callee(stack[d], code)
  }

  lemma {:induction false} UnderLater(stack: seq<Cell>, open: seq<nat>)
    requires Over(stack, open)
    ensures exists d: nat :: d <= |stack| && Under(stack, open) == stack[d..]
    decreases |open|
  {
    if open == [] {
      assert Under(stack, open) == stack[0..];
    } else {
      UnderLater(Pop(stack), open[1..]);
      var d: nat :| d <= |Pop(stack)| && Under(Pop(stack), open[1..]) == Pop(stack)[d..];
      assert Pop(stack)[d..] == stack[FrameSize(stack[1].i) + d..];
    }
  }

  lemma {:induction false} OverWhole(stack: seq<Cell>, open: seq<nat>)
    requires Over(stack, open) && WholeFrames(Under(stack, open))
    ensures WholeFrames(stack)
    decreases |open|
  {
    if open != [] {
      OverWhole(Pop(stack), open[1..]);
    }
  }

  lemma {:induction false} LaidMeans(stack: seq<Cell>, code: Code, ip: nat, rp: seq<Return>)
    requires Laid(stack, code, ip, rp)
    ensures WholeFrames(stack) && Backed(stack, code, rp)
    decreases |rp|
  {
    hide Piece;
    var shape: Shape :| LaidBy(shape, stack, code, ip, rp);
    var open := shape[ip].value;
    var rest := Under(stack, open);
    if rp != [] {
      LaidMeans(Pop(rest), rp[0].code, rp[0].ip + 1, rp[1..]);
      UnderLater(stack, open);
      var d: nat :| d <= |stack| && rest == stack[d..];
      assert FrameAt(stack, d, code);
    }
    OverWhole(stack, open);
  }

  // --- each instruction keeps it

  lemma LaidAgain(shape: Shape, m: Machine, ip: nat, stack: seq<Cell>)
    requires m.Running? && LaidBy(shape, m.stack, m.code, m.ip, m.rp) && ip < |shape| && shape[ip].Some?
    requires Over(stack, shape[ip].value)
    requires Under(stack, shape[ip].value) == Under(m.stack, shape[m.ip].value)
    ensures Laid(stack, m.code, ip, m.rp)
  {
    hide Piece, Over, Under;
    assert LaidBy(shape, stack, m.code, ip, m.rp);
  }

  lemma FitsHere(shape: Shape, m: Machine)
    requires m.Running? && LaidBy(shape, m.stack, m.code, m.ip, m.rp)
    ensures m.ip < |m.code.words| ==> Fits(m.code.words, shape, m.rp != [], m.ip)
    ensures m.ip < |shape| && shape[m.ip].Some? && Over(m.stack, shape[m.ip].value) && |shape| == |m.code.words| + 1
  {
  }

  lemma StoreKeeps(stack: seq<Cell>, open: seq<nat>, k: nat, c: Cell)
    requires Over(stack, open) && open != [] && 2 <= k < FrameSize(open[0])
    ensures k < |stack| && Over(stack[k := c], open) && Under(stack[k := c], open) == Under(stack, open)
  {
    assert Pop(stack[k := c]) == Pop(stack);
  }

  lemma FrameKeeps(stack: seq<Cell>, open: seq<nat>, n: nat, c: Cell)
    requires Over(stack, open)
    ensures var t := [c, IntC(n)] + seq(n, _ => IntC(0)) + stack;
      Over(t, [n] + open) && Under(t, [n] + open) == Under(stack, open)
  {
    var t := [c, IntC(n)] + seq(n, _ => IntC(0)) + stack;
    assert Pop(t) == stack && ([n] + open)[1..] == open;
  }

  lemma {:induction false} ArithFits(p: Prim, cs: seq<Cell>)
    requires CellsFit(cs) && CallPrim(p, cs).Some?
    ensures CellFits(CallPrim(p, cs).value)
  {
  }

  lemma UnboxFits(c: Cell)
    requires CellFits(c)
    ensures CellFits(Unbox(c))
  {
  }

  ghost predicate DefsFit(defs: map<Symbol, Cell>) {
    forall x :: x in defs ==> CellFits(defs[x])
  }

  /** The instructions that leave the stack alone. */
  predicate Quiet(op: Opcode) {
    !op.CALL? && !op.TAIL? && !op.RET? && !op.STORE? && !op.CREATE_FRAME?
  }

  /** What such an instruction puts in d1. */
  lemma QuietCells(defs: map<Symbol, Cell>, m: Machine, op: Opcode, w: Word)
    requires m.Running? && CellsOf(m) && WordFits(w) && DefsFit(defs) && Quiet(op)
    ensures var t := StepOperand(defs, m, op, w); t.Running? ==>
      && CellFits(t.d1) && t == m.(d1 := t.d1, ip := t.ip)
      && (t.ip == m.ip + 2 || (op in {BF, BRA} && w.Long? && t.ip == m.ip + w.n))
      && (op.BRA? ==> w.Long? && t.ip == m.ip + w.n)
  {
    var t := StepOperand(defs, m, op, w);
    if op.LOAD_RELATIVE? && t.Running? {
      UnboxFits(Fetch([w.r][0], m.stack, m.ep));
    }
  }

  lemma QuietFramed(defs: map<Symbol, Cell>, m: Machine, op: Opcode, w: Word, shape: Shape)
    requires m.Running? && CellsOf(m) && WordFits(w) && DefsFit(defs) && Quiet(op)
    requires LaidBy(shape, m.stack, m.code, m.ip, m.rp)
    requires OperandFits(shape, m.ip, op, w, shape[m.ip].value)
    ensures Framed(StepOperand(defs, m, op, w))
  {
    hide LaidBy, Laid, CellFits, WordFits, CellsFit, WordsFit, ReturnsFit, StepOperand;
    FitsHere(shape, m);
    QuietCells(defs, m, op, w);
    var t := StepOperand(defs, m, op, w);
    if t.Running? {
      LaidAgain(shape, m, t.ip, m.stack);
    } else {
      StepOperandStops(defs, m, op, w);
    }
  }

  lemma StepOperandStops(defs: map<Symbol, Cell>, m: Machine, op: Opcode, w: Word)
    requires m.Running?
    ensures !StepOperand(defs, m, op, w).Halted?
  {
  }

  lemma StoreFramed(defs: map<Symbol, Cell>, m: Machine, w: Word, shape: Shape)
    requires m.Running? && CellsOf(m) && LaidBy(shape, m.stack, m.code, m.ip, m.rp)
    requires OperandFits(shape, m.ip, STORE, w, shape[m.ip].value)
    ensures Framed(StepOperand(defs, m, STORE, w))
  {
    hide LaidBy, Laid, CellFits, WordsFit, ReturnsFit, Over, Under;
    FitsHere(shape, m);
    if w.Long? && 0 <= w.n < |m.stack| {
      StoreKeeps(m.stack, shape[m.ip].value, w.n, m.d1);
      LaidAgain(shape, m, m.ip + 2, m.stack[w.n := m.d1]);
    }
  }

  lemma CreateFramed(defs: map<Symbol, Cell>, m: Machine, w: Word, shape: Shape)
    requires m.Running? && CellsOf(m) && LaidBy(shape, m.stack, m.code, m.ip, m.rp)
    requires OperandFits(shape, m.ip, CREATE_FRAME, w, shape[m.ip].value)
    ensures Framed(StepOperand(defs, m, CREATE_FRAME, w))
  {
    hide LaidBy, Laid, WordsFit, ReturnsFit, Over, Under;
    FitsHere(shape, m);
    if w.Long? && w.n >= 0 {
      FrameKeeps(m.stack, shape[m.ip].value, w.n, m.d1);
      LaidAgain(shape, m, m.ip + 2, [m.d1, IntC(w.n)] + seq(w.n, _ => IntC(0)) + m.stack);
    }
  }

  // calls and returns

  lemma {:induction false} BoxingKeeps(stack: seq<Cell>, offsets: seq<nat>)
    requires HasFrame(stack)
    requires forall i :: 0 <= i < |offsets| ==> 2 <= offsets[i] < FrameSize(stack[1].i)
    ensures FrameSize(stack[1].i) <= |stack| && forall i :: 0 <= i < |offsets| ==> offsets[i] < |stack|
    ensures var t := ToIndirect(stack, offsets);
      HasFrame(t) && t[0] == stack[0] && t[1] == stack[1] && Pop(t) == Pop(stack) && (CellsFit(stack) ==> CellsFit(t))
    decreases |offsets|
  {
    if offsets != [] {
      var k := offsets[0];
      var u := stack[k := Box(stack[k])];
      assert Pop(u) == Pop(stack);
      BoxingKeeps(u, offsets[1..]);
    }
  }

  /** Code starts in a frame whose callee it is, with the caller's part of the stack below. */
  lemma EnterFramed(m: Machine, code: Code, ep: seq<Cell>)
    requires m.Running? && CellsOf(m) && CodeFits(code, true) && CellsFit(ep)
    requires HasFrame(m.stack) && Callee(m.stack[0], code)
    requires m.rp != [] && Laid(Pop(m.stack), m.rp[0].code, m.rp[0].ip + 1, m.rp[1..])
    ensures Framed(Enter(m, code, ep))
  {
    hide CellFits, WordFits, Piece, Laid, ReturnsFit;
    var t := Enter(m, code, ep);
    if t.Running? {
      BoxingKeeps(m.stack, code.indirect);
      var shape: Shape :| Piece(code.words, shape, true, [], None);
      PieceStarts(code.words, shape, true);
      assert LaidBy(shape, t.stack, code, 0, t.rp);
      LaidFrom(shape, t.stack, code, 0, t.rp);
    }
  }

  lemma PieceStarts(words: seq<Word>, shape: Shape, framed: bool)
    requires Piece(words, shape, framed, [], None)
    ensures |shape| > 0 && shape[0] == Some([])
  {
  }

  lemma LaidFrom(shape: Shape, stack: seq<Cell>, code: Code, ip: nat, rp: seq<Return>)
    requires LaidBy(shape, stack, code, ip, rp)
    ensures Laid(stack, code, ip, rp)
  {
  }

  lemma ArgsFit(stack: seq<Cell>)
    requires CellsFit(stack) && HasFrame(stack)
    ensures CellsFit(Args(stack)) && CellsFit(Pop(stack)) && CellFits(stack[0])
  {
    hide CellFits;
  }

  /** A library procedure takes its frame off. */
  lemma PrimFramed(m: Machine, shape: Shape, c: Cell)
    requires m.Running? && CellsOf(m) && LaidBy(shape, m.stack, m.code, m.ip, m.rp) && CellFits(c)
    requires shape[m.ip].value != [] && Next(shape, m.ip + 1, shape[m.ip].value[1..])
    ensures HasFrame(m.stack) && Framed(m.(d1 := c, stack := Pop(m.stack), ip := m.ip + 1))
  {
    hide LaidBy, Laid, CellFits, WordsFit, ReturnsFit;
    FitsHere(shape, m);
    ArgsFit(m.stack);
    hide CellsFit;
    LaidAgain(shape, m, m.ip + 1, Pop(m.stack));
  }

  lemma CallFramed(m: Machine, shape: Shape)
    requires m.Running? && CellsOf(m) && LaidBy(shape, m.stack, m.code, m.ip, m.rp)
    requires shape[m.ip].value != [] && Next(shape, m.ip + 1, shape[m.ip].value[1..])
    ensures Framed(StepCall(m))
  {
    hide LaidBy, Laid, CodeFits, WordsFit, Enter, CallPrim;
    FitsHere(shape, m);
    ArgsFit(m.stack);
    LaidAgain(shape, m, m.ip + 1, Pop(m.stack));
    hide Over, Under, CellsFit;
    var called := m.(rp := [Return(m.code, m.ip, m.ep)] + m.rp);
    assert called.rp[1..] == m.rp;
    match m.stack[0]
    case CodeC(code) =>
      CellsNone();
      EnterFramed(called, code, []);
    case LambdaC(code, env) =>
      EnvFits(m.stack[0]);
      EnterFramed(called, code, env);
    case PrimC(p) =>
      if CallPrim(p, Args(m.stack)).Some? {
        ArithFits(p, Args(m.stack));
        PrimFramed(m, shape, CallPrim(p, Args(m.stack)).value);
      }
    case _ =>
  }

  lemma CellsNone()
    ensures CellsFit([])
  {
  }

  lemma EnvFits(c: Cell)
    requires CellFits(c) && c.LambdaC?
    ensures CellsFit(c.env) && CodeFits(c.code, true)
  {
  }

  lemma DropKeeps(stack: seq<Cell>)
    requires HasFrame(stack) && HasFrame(Pop(stack))
    ensures var t := DropCaller(stack);
      HasFrame(t) && t[0] == stack[0] && t[1] == stack[1] && Pop(t) == Pop(Pop(stack))
        && (CellsFit(stack) ==> CellsFit(t))
  {
    hide CellFits;
  }

  /** Under the one frame a tail call has made lies the frame of the code that makes it. */
  lemma TailOver(shape: Shape, m: Machine)
    requires m.Running? && LaidBy(shape, m.stack, m.code, m.ip, m.rp) && |shape[m.ip].value| == 1 && m.rp != []
    ensures HasFrame(m.stack) && HasFrame(Pop(m.stack))
    ensures Laid(Pop(Pop(m.stack)), m.rp[0].code, m.rp[0].ip + 1, m.rp[1..])
  {
    hide Piece;
    var open := shape[m.ip].value;
    assert open[1..] == [];
    assert Under(m.stack, open) == Pop(m.stack);
  }

  lemma TailFramed(m: Machine, shape: Shape)
    requires m.Running? && CellsOf(m) && LaidBy(shape, m.stack, m.code, m.ip, m.rp)
    requires m.rp != [] && |shape[m.ip].value| == 1 && Next(shape, m.ip + 1, [])
    ensures Framed(StepTail(m))
  {
    hide LaidBy, Laid, CodeFits, WordsFit, ReturnsFit, Enter, CallPrim;
    FitsHere(shape, m);
    ArgsFit(m.stack);
    TailOver(shape, m);
    DropKeeps(m.stack);
    hide Over, Under, CellsFit, Pop, DropCaller;
    assert shape[m.ip].value[1..] == [];
    var moved := m.(stack := DropCaller(m.stack));
    match m.stack[0]
    case CodeC(code) =>
      EnterFramed(moved, code, m.ep);
    case LambdaC(code, env) =>
      EnvFits(m.stack[0]);
      EnterFramed(moved, code, env);
    case PrimC(p) =>
      if CallPrim(p, Args(m.stack)).Some? {
        ArithFits(p, Args(m.stack));
        PrimFramed(m, shape, CallPrim(p, Args(m.stack)).value);
      }
    case _ =>
  }

  lemma RetFramed(m: Machine, shape: Shape)
    requires m.Running? && CellsOf(m) && LaidBy(shape, m.stack, m.code, m.ip, m.rp) && shape[m.ip].value == []
    ensures Framed(StepRet(m))
  {
    hide Piece, Laid, CellFits, WordsFit;
    if m.rp != [] {
      ArgsFit(m.stack);
    }
  }

  /** Every instruction leaves whole frames. */
  lemma StepFramed(defs: map<Symbol, Cell>, m: Machine)
    requires Framed(m) && DefsFit(defs)
    ensures Framed(Step(defs, m))
  {
    hide CellFits, Laid, LaidBy, OperandFits, StepCall, StepTail, StepRet, StepOperand, DefsFit, CellsFit, ReturnsFit;
    if m.Running? && m.ip < |m.code.words| && m.code.words[m.ip].Op? {
      var shape := LaidShape(m);
      FitsHere(shape, m);
      match m.code.words[m.ip].op
      case CALL => CallFramed(m, shape);
      case TAIL => TailFramed(m, shape);
      case RET => RetFramed(m, shape);
      case op =>
        if m.ip + 1 < |m.code.words| {
          var w := m.code.words[m.ip + 1];
          if op == STORE {
            StoreFramed(defs, m, w, shape);
          } else if op == CREATE_FRAME {
            CreateFramed(defs, m, w, shape);
          } else {
            QuietFramed(defs, m, op, w, shape);
          }
        }
    }
  }

  lemma LaidShape(m: Machine) returns (shape: Shape)
    requires m.Running? && Laid(m.stack, m.code, m.ip, m.rp)
    ensures LaidBy(shape, m.stack, m.code, m.ip, m.rp)
  {
    shape :| LaidBy(shape, m.stack, m.code, m.ip, m.rp);
  }

  lemma {:induction false} StepsFramed(defs: map<Symbol, Cell>, m: Machine, n: nat)
    requires Framed(m) && DefsFit(defs)
    ensures Framed(Steps(defs, m, n))
    decreases n
  {
    hide Framed, DefsFit, Step;
    if n > 0 {
      StepFramed(defs, m);
      StepsFramed(defs, Step(defs, m), n - 1);
    }
  }

  // --- what the compiler emits keeps to its frames

  /** Part of some code stands in it with the shape it has alone. */
  ghost predicate Embeds(words: seq<Word>, shape: Shape, d: nat, whole: seq<Word>, all: Shape) {
    && |shape| == |words| + 1 && |all| == |whole| + 1 && d + |words| <= |whole|
    && (forall i :: 0 <= i < |words| ==> whole[d + i] == words[i])
    && forall i :: 0 <= i <= |words| ==> all[d + i] == shape[i]
  }

  lemma FitsEmbedded(words: seq<Word>, shape: Shape, framed: bool, ip: nat, d: nat, whole: seq<Word>, all: Shape)
    requires Fits(words, shape, framed, ip) && Embeds(words, shape, d, whole, all)
    ensures Fits(whole, all, framed, d + ip)
  {
    assert whole[d + ip] == words[ip] && all[d + ip] == shape[ip];
    if ip + 1 < |words| {
      assert whole[d + (ip + 1)] == words[ip + 1];
      var w := words[ip + 1];
      if w.Long? && 0 <= ip + w.n < |shape| {
        assert all[d + (ip + w.n)] == shape[ip + w.n];
      }
      if ip + 2 < |shape| {
        assert all[d + (ip + 2)] == shape[ip + 2];
      }
    }
    assert all[d + (ip + 1)] == shape[ip + 1];
  }

  lemma PieceJoin(a: seq<Word>, sa: Shape, b: seq<Word>, sb: Shape, framed: bool, open: seq<nat>, mid: seq<nat>,
                  out: Option<seq<nat>>) returns (shape: Shape)
    requires Piece(a, sa, framed, open, Some(mid)) && Piece(b, sb, framed, mid, out)
    ensures Piece(a + b, shape, framed, open, out)
  {
    hide Fits, Embeds;
    shape := sa[..|a|] + sb;
    EmbedsMid([], [], a, sa, b, sb);
    EmbedsMid(a, sa[..|a|], b, sb, [], [sb[|b|]]);
    assert [] + a + b == a + b && [] + sa[..|a|] + sb == shape;
    assert a + b + [] == a + b && sa[..|a|] + sb[..|b|] + [sb[|b|]] == shape;
    forall ip | 0 <= ip < |a + b| && shape[ip].Some? ensures Fits(a + b, shape, framed, ip) {
      if ip < |a| {
        FitsPart(a, sa, framed, open, Some(mid), 0, a + b, shape, ip);
      } else {
        FitsPart(b, sb, framed, mid, out, |a|, a + b, shape, ip);
      }
    }
  }

  /** An instruction with its operand. */
  lemma PieceTwo(op: Opcode, w: Word, framed: bool, open: seq<nat>, out: seq<nat>) returns (shape: Shape)
    requires !op.CALL? && !op.TAIL? && !op.RET? && !op.BF? && !op.BRA?
    requires OperandFits([Some(open), None, Some(out)], 0, op, w, open)
    ensures Piece([Op(op), w], shape, framed, open, Some(out))
  {
    shape := [Some(open), None, Some(out)];
  }

  /** A call of either kind, or a return. */
  lemma PieceOne(op: Opcode, framed: bool, open: seq<nat>, out: Option<seq<nat>>) returns (shape: Shape)
    requires op.CALL? || op.TAIL? || op.RET?
    requires Fits([Op(op)], [Some(open), out], framed, 0)
    ensures Piece([Op(op)], shape, framed, open, out)
  {
    shape := [Some(open), out];
  }

  lemma PieceNone(framed: bool, open: seq<nat>) returns (shape: Shape)
    ensures Piece([], shape, framed, open, Some(open))
  {
    shape := [Some(open)];
  }

  function IfWords(t: seq<Word>, y: seq<Word>, n: seq<Word>): seq<Word> {
    t + [Op(BF), Long(|y| + 4)] + y + [Op(BRA), Long(|n| + 2)] + n
  }

  function IfShape(st: Shape, t: nat, sy: Shape, y: nat, sn: Shape, open: seq<nat>): Shape
    requires t <= |st| && y <= |sy|
  {
    st[..t] + [Some(open), None] + sy[..y] + [Some(open), None] + sn
  }

  lemma EmbedsMid(pre: seq<Word>, spre: Shape, words: seq<Word>, shape: Shape, post: seq<Word>, spost: Shape)
    requires |spre| == |pre| && |shape| == |words| + 1 && |spost| == |post| + 1 && spost[0] == shape[|words|]
    ensures Embeds(words, shape, |pre|, pre + words + post, spre + shape[..|words|] + spost)
  {
  }

  lemma IfTest(t: seq<Word>, st: Shape, y: seq<Word>, sy: Shape, n: seq<Word>, sn: Shape, open: seq<nat>)
    requires |st| == |t| + 1 && |sy| == |y| + 1 && |sn| == |n| + 1 && st[|t|] == Some(open)
    ensures Embeds(t, st, 0, IfWords(t, y, n), IfShape(st, |t|, sy, |y|, sn, open))
  {
    var post, spost := [Op(BF), Long(|y| + 4)] + y + [Op(BRA), Long(|n| + 2)] + n,
                       [Some(open), None] + sy[..|y|] + [Some(open), None] + sn;
    EmbedsMid([], [], t, st, post, spost);
    assert IfWords(t, y, n) == [] + t + post;
    assert IfShape(st, |t|, sy, |y|, sn, open) == [] + st[..|t|] + spost;
  }

  lemma IfYes(t: seq<Word>, st: Shape, y: seq<Word>, sy: Shape, n: seq<Word>, sn: Shape, open: seq<nat>)
    requires |st| == |t| + 1 && |sy| == |y| + 1 && |sn| == |n| + 1 && sy[|y|] == Some(open)
    ensures Embeds(y, sy, |t| + 2, IfWords(t, y, n), IfShape(st, |t|, sy, |y|, sn, open))
  {
    var pre, spre := t + [Op(BF), Long(|y| + 4)], st[..|t|] + [Some(open), None];
    var post, spost := [Op(BRA), Long(|n| + 2)] + n, [Some(open), None] + sn;
    EmbedsMid(pre, spre, y, sy, post, spost);
    assert IfWords(t, y, n) == pre + y + post;
    assert IfShape(st, |t|, sy, |y|, sn, open) == spre + sy[..|y|] + spost;
  }

  lemma IfNo(t: seq<Word>, st: Shape, y: seq<Word>, sy: Shape, n: seq<Word>, sn: Shape, open: seq<nat>)
    requires |st| == |t| + 1 && |sy| == |y| + 1 && |sn| == |n| + 1
    ensures Embeds(n, sn, |t| + 2 + |y| + 2, IfWords(t, y, n), IfShape(st, |t|, sy, |y|, sn, open))
  {
    var pre, spre := t + [Op(BF), Long(|y| + 4)] + y + [Op(BRA), Long(|n| + 2)],
                     st[..|t|] + [Some(open), None] + sy[..|y|] + [Some(open), None];
    EmbedsMid(pre, spre, n, sn, [], [sn[|n|]]);
    assert sn[..|n|] + [sn[|n|]] == sn;
    assert IfWords(t, y, n) == pre + n + [];
    assert IfShape(st, |t|, sy, |y|, sn, open) == spre + sn[..|n|] + [sn[|n|]];
  }

  /** Where the branches stand, and where they lead. */
  lemma IfBranches(t: seq<Word>, st: Shape, y: seq<Word>, sy: Shape, n: seq<Word>, sn: Shape, open: seq<nat>)
    requires |st| == |t| + 1 && |sy| == |y| + 1 && |sn| == |n| + 1
    ensures var words, shape, p, q := IfWords(t, y, n), IfShape(st, |t|, sy, |y|, sn, open), |t|, |t| + 2 + |y|;
      && |words| == q + 2 + |n| && |shape| == |words| + 1
      && words[p] == Op(BF) && words[p + 1] == Long(|y| + 4) && words[q] == Op(BRA) && words[q + 1] == Long(|n| + 2)
      && shape[p] == Some(open) && shape[p + 1] == None && shape[q] == Some(open) && shape[q + 1] == None
  {
  }

  /** The branches of a conditional end with the frames it started with. */
  lemma PieceIf(t: seq<Word>, st: Shape, y: seq<Word>, sy: Shape, n: seq<Word>, sn: Shape, framed: bool,
                open: seq<nat>) returns (shape: Shape)
    requires Piece(t, st, framed, open, Some(open)) && Piece(y, sy, framed, open, Some(open))
    requires Piece(n, sn, framed, open, Some(open))
    ensures Piece(IfWords(t, y, n), shape, framed, open, Some(open))
  {
    hide IfWords, IfShape, Fits, Embeds, Piece;
    PieceEnds(t, st, framed, open, Some(open));
    PieceEnds(y, sy, framed, open, Some(open));
    PieceEnds(n, sn, framed, open, Some(open));
    var words, p, q := IfWords(t, y, n), |t|, |t| + 2 + |y|;
    shape := IfShape(st, |t|, sy, |y|, sn, open);
    IfTest(t, st, y, sy, n, sn, open);
    IfYes(t, st, y, sy, n, sn, open);
    IfNo(t, st, y, sy, n, sn, open);
    IfBranches(t, st, y, sy, n, sn, open);
    IfEnds(t, st, y, sy, n, sn, words, shape, open);
    IfFits(words, shape, framed, p, q, |y|, |n|, open);
    forall ip | 0 <= ip < |words| && shape[ip].Some? ensures Fits(words, shape, framed, ip) {
      if ip < p {
        FitsPart(t, st, framed, open, Some(open), 0, words, shape, ip);
      } else if p + 2 <= ip < q {
        FitsPart(y, sy, framed, open, Some(open), p + 2, words, shape, ip);
      } else if q + 2 <= ip {
        FitsPart(n, sn, framed, open, Some(open), q + 2, words, shape, ip);
      }
    }
    PieceOf(words, shape, framed, open, Some(open));
  }

  lemma PieceEnds(words: seq<Word>, shape: Shape, framed: bool, open: seq<nat>, out: Option<seq<nat>>)
    requires Piece(words, shape, framed, open, out)
    ensures |shape| == |words| + 1 && shape[0] == Some(open) && shape[|words|] == out
  {
  }

  lemma PieceOf(words: seq<Word>, shape: Shape, framed: bool, open: seq<nat>, out: Option<seq<nat>>)
    requires |shape| == |words| + 1 && shape[0] == Some(open) && shape[|words|] == out
    requires forall ip :: 0 <= ip < |words| && shape[ip].Some? ==> Fits(words, shape, framed, ip)
    ensures Piece(words, shape, framed, open, out)
  {
    hide Fits;
  }

  lemma FitsPart(words: seq<Word>, shape: Shape, framed: bool, open: seq<nat>, out: Option<seq<nat>>, d: nat,
                 whole: seq<Word>, all: Shape, ip: nat)
    requires Piece(words, shape, framed, open, out) && Embeds(words, shape, d, whole, all)
    requires d <= ip < d + |words| && ip < |all| && all[ip].Some?
    ensures Fits(whole, all, framed, ip)
  {
    hide Fits;
    assert all[d + (ip - d)] == shape[ip - d];
    FitsEmbedded(words, shape, framed, ip - d, d, whole, all);
  }

  lemma IfEnds(t: seq<Word>, st: Shape, y: seq<Word>, sy: Shape, n: seq<Word>, sn: Shape, words: seq<Word>,
               shape: Shape, open: seq<nat>)
    requires Embeds(t, st, 0, words, shape) && Embeds(y, sy, |t| + 2, words, shape)
    requires Embeds(n, sn, |t| + 2 + |y| + 2, words, shape) && |words| == |t| + 2 + |y| + 2 + |n|
    requires st[0] == sy[0] == sn[0] == sn[|n|] == Some(open)
    ensures shape[0] == shape[|t| + 2] == shape[|t| + 2 + |y| + 2] == shape[|words|] == Some(open)
  {
    assert shape[0 + 0] == st[0] && shape[|t| + 2 + 0] == sy[0];
    assert shape[|t| + 2 + |y| + 2 + 0] == sn[0] && shape[|t| + 2 + |y| + 2 + |n|] == sn[|n|];
  }

  lemma IfFits(words: seq<Word>, shape: Shape, framed: bool, p: nat, q: nat, y: nat, n: nat, open: seq<nat>)
    requires q == p + 2 + y && |words| == q + 2 + n && |shape| == |words| + 1
    requires words[p] == Op(BF) && words[p + 1] == Long(y + 4) && words[q] == Op(BRA) && words[q + 1] == Long(n + 2)
    requires shape[p] == shape[q] == shape[p + 2] == shape[q + 2] == shape[|words|] == Some(open)
    ensures Fits(words, shape, framed, p) && Fits(words, shape, framed, q)
  {
  }

  lemma WordsJoin(a: seq<Word>, b: seq<Word>)
    requires WordsFit(a) && WordsFit(b)
    ensures WordsFit(a + b)
  {
    hide WordFits;
  }

  lemma {:induction false} DatumFits(d: Datum)
    ensures CellFits(InjectCell(d))
  {
    match d
    case PairD(a, b) =>
      DatumFits(a);
      DatumFits(b);
    case _ =>
  }

  /** A load of either kind. */
  lemma LoadPiece(op: Opcode, w: Word, framed: bool, open: seq<nat>) returns (shape: Shape)
    requires op in {LOAD, LOAD_RELATIVE, CDR, CREATE_LAMBDA, ADDI, SUBI, MULI, DIVI} && WordFits(w)
    ensures Piece([Op(op), w], shape, framed, open, Some(open)) && WordsFit([Op(op), w])
  {
    shape := PieceTwo(op, w, framed, open, open);
  }

  lemma ItemFits(g: Globals, scope: seq<seq<Symbol>>, depth: nat, requests: seq<Symbol>, x: Symbol)
    ensures var w := ItemOf(g, scope, depth, requests, x).word;
      WordFits(w) && LoadOp(w) in {LOAD, LOAD_RELATIVE, CDR}
  {
  }

  /** The code of an expression ends with the frames it started with.  Tail calls stand where no frame is being made. */
  lemma {:induction false} CompilePiece(g: Globals, e: Expr, scope: seq<seq<Symbol>>, depth: nat,
                                        requests: seq<Symbol>, indirect: seq<nat>, tail: bool, framed: bool,
                                        open: seq<nat>) returns (shape: Shape)
    requires tail ==> framed && open == []
    ensures var r := Compile(g, e, scope, depth, requests, indirect, tail);
      Piece(r.words, shape, framed, open, Some(open)) && WordsFit(r.words)
    decreases e, 1
  {
    hide Piece, WordsFit;
    match e
    case Num(i) => shape := LoadPiece(LOAD, Lit(IntC(i)), framed, open);
    case Flag(b) => shape := LoadPiece(LOAD, Lit(BoolC(b)), framed, open);
    case Quote(d) =>
      DatumFits(d);
      shape := LoadPiece(LOAD, Lit(InjectCell(d)), framed, open);
    case Var(x) =>
      hide ItemOf, LoadOp;
      ItemFits(g, scope, depth, requests, x);
      var w := ItemOf(g, scope, depth, requests, x).word;
      shape := LoadPiece(LoadOp(w), w, framed, open);
    case If(test, yes, no) =>
      shape := IfPiece(g, e, scope, depth, requests, indirect, tail, framed, open);
    case Lambda(params, init, last) =>
      hide ClosureRefs;
      LambdaFits(g, e, scope);
      var b := LambdaGen(g, e, scope);
      var code := Code(params, b.indirect, b.words);
      var c := ClosureRefs(g, b.requests, scope, depth, requests, indirect);
      if b.requests == [] {
        shape := LoadPiece(LOAD, Lit(CodeC(code)), framed, open);
      } else {
        shape := LoadPiece(CREATE_LAMBDA, Template(code, c.refs), framed, open);
      }
    case Call(f, args) =>
      shape := CallPiece(g, e, scope, depth, requests, indirect, tail, framed, open);
  }

  function LambdaGen(g: Globals, e: Expr, scope: seq<seq<Symbol>>): Gen
    requires e.Lambda?
  {
    var i := CompileInit(g, e.init, [e.params] + scope, [], []);
    var b := Compile(g, e.last, [e.params] + scope, 0, i.requests, i.indirect, true);
    Gen(i.words + b.words + [Op(RET)], b.requests, b.indirect)
  }

  lemma IfPiece(g: Globals, e: Expr, scope: seq<seq<Symbol>>, depth: nat, requests: seq<Symbol>, indirect: seq<nat>,
                tail: bool, framed: bool, open: seq<nat>) returns (shape: Shape)
    requires e.If? && (tail ==> framed && open == [])
    ensures var r := Compile(g, e, scope, depth, requests, indirect, tail);
      Piece(r.words, shape, framed, open, Some(open)) && WordsFit(r.words)
    decreases e, 0
  {
    hide Piece, WordsFit;
    var t := Compile(g, e.test, scope, depth, requests, indirect, false);
    var y := Compile(g, e.yes, scope, depth, t.requests, t.indirect, tail);
    var n := Compile(g, e.no, scope, depth, y.requests, y.indirect, tail);
    var st := CompilePiece(g, e.test, scope, depth, requests, indirect, false, framed, open);
    var sy := CompilePiece(g, e.yes, scope, depth, t.requests, t.indirect, tail, framed, open);
    var sn := CompilePiece(g, e.no, scope, depth, y.requests, y.indirect, tail, framed, open);
    shape := PieceIf(t.words, st, y.words, sy, n.words, sn, framed, open);
    PlainFits(BF, |y.words| + 4);
    PlainFits(BRA, |n.words| + 2);
    WordsJoin(t.words, [Op(BF), Long(|y.words| + 4)]);
    WordsJoin(t.words + [Op(BF), Long(|y.words| + 4)], y.words);
    WordsJoin(t.words + [Op(BF), Long(|y.words| + 4)] + y.words, [Op(BRA), Long(|n.words| + 2)]);
    WordsJoin(t.words + [Op(BF), Long(|y.words| + 4)] + y.words + [Op(BRA), Long(|n.words| + 2)], n.words);
  }

  lemma PlainFits(op: Opcode, n: int)
    ensures WordsFit([Op(op), Long(n)]) && WordsFit([Op(op)])
  {
  }

  lemma LambdaFits(g: Globals, e: Expr, scope: seq<seq<Symbol>>)
    requires e.Lambda?
    ensures var b := LambdaGen(g, e, scope); CodeFits(Code(e.params, b.indirect, b.words), true)
    decreases e, 0
  {
    hide Piece, WordsFit, Compile, CompileInit;
    var inner := [e.params] + scope;
    var i := CompileInit(g, e.init, inner, [], []);
    var b := Compile(g, e.last, inner, 0, i.requests, i.indirect, true);
    var si := InitPiece(g, e.init, inner, [], []);
    var sb := CompilePiece(g, e.last, inner, 0, i.requests, i.indirect, true, true, []);
    var sr := PieceOne(RET, true, [], None);
    var s1 := PieceJoin(i.words, si, b.words, sb, true, [], [], Some([]));
    var s2 := PieceJoin(i.words + b.words, s1, [Op(RET)], sr, true, [], [], None);
    PlainFits(RET, 0);
    WordsJoin(i.words, b.words);
    WordsJoin(i.words + b.words, [Op(RET)]);
    SlotsFit(g, e, scope);
    assert LambdaGen(g, e, scope) == Gen(i.words + b.words + [Op(RET)], b.requests, b.indirect);
    CodeFitsOf(Code(e.params, b.indirect, i.words + b.words + [Op(RET)]), s2);
  }

  lemma SlotsFit(g: Globals, e: Expr, scope: seq<seq<Symbol>>)
    requires e.Lambda?
    ensures var b := LambdaGen(g, e, scope);
      forall i :: 0 <= i < |b.indirect| ==> 2 <= b.indirect[i] < FrameSize(|e.params|)
  {
    hide Compile, CompileInit;
    LambdaRequests(g, e.params, e.init, e.last, scope);
    var b := LambdaGen(g, e, scope);
    assert OwnSlots([e.params] + scope, b.indirect);
    assert forall i :: 0 <= i < |b.indirect| ==> b.indirect[i] in b.indirect;
  }

  lemma CodeFitsOf(code: Code, shape: Shape)
    requires Piece(code.words, shape, true, [], None) && WordsFit(code.words)
    requires forall i :: 0 <= i < |code.indirect| ==> 2 <= code.indirect[i] < FrameSize(|code.vars|)
    ensures CodeFits(code, true)
  {
    hide Piece, WordFits;
  }

  lemma {:induction false} InitPiece(g: Globals, init: seq<Expr>, scope: seq<seq<Symbol>>, requests: seq<Symbol>,
                                     indirect: seq<nat>) returns (shape: Shape)
    ensures var r := CompileInit(g, init, scope, requests, indirect);
      Piece(r.words, shape, true, [], Some([])) && WordsFit(r.words)
    decreases init, 0
  {
    hide Piece;
    if init == [] {
      shape := PieceNone(true, []);
    } else {
      hide WordsFit;
      var a := Compile(g, init[0], scope, 0, requests, indirect, false);
      var rest := CompileInit(g, init[1..], scope, a.requests, a.indirect);
      var sa := CompilePiece(g, init[0], scope, 0, requests, indirect, false, true, []);
      var sr := InitPiece(g, init[1..], scope, a.requests, a.indirect);
      shape := PieceJoin(a.words, sa, rest.words, sr, true, [], [], Some([]));
      WordsJoin(a.words, rest.words);
    }
  }

  /** Arguments go into the frame made last. */
  lemma {:induction false} ArgsPiece(g: Globals, args: seq<Expr>, done: nat, scope: seq<seq<Symbol>>, depth: nat,
                                     requests: seq<Symbol>, indirect: seq<nat>, framed: bool, open: seq<nat>)
    returns (shape: Shape)
    requires open != [] && done + |args| <= open[0]
    ensures var r := CompileArgs(g, args, done, scope, depth, requests, indirect);
      Piece(r.words, shape, framed, open, Some(open)) && WordsFit(r.words)
    decreases args, 0
  {
    hide Piece;
    if args == [] {
      shape := PieceNone(framed, open);
    } else {
      hide WordsFit;
      var a := Compile(g, args[0], scope, depth, requests, indirect, false);
      var rest := CompileArgs(g, args[1..], done + 1, scope, depth, a.requests, a.indirect);
      var sa := CompilePiece(g, args[0], scope, depth, requests, indirect, false, framed, open);
      var sr := ArgsPiece(g, args[1..], done + 1, scope, depth, a.requests, a.indirect, framed, open);
      var store := [Op(STORE), Long(2 + done)];
      var ss := PieceTwo(STORE, Long(2 + done), framed, open, open);
      var s1 := PieceJoin(a.words, sa, store, ss, framed, open, open, Some(open));
      shape := PieceJoin(a.words + store, s1, rest.words, sr, framed, open, open, Some(open));
      PlainFits(STORE, 2 + done);
      WordsJoin(a.words, store);
      WordsJoin(a.words + store, rest.words);
    }
  }

  lemma CallPiece(g: Globals, e: Expr, scope: seq<seq<Symbol>>, depth: nat, requests: seq<Symbol>,
                  indirect: seq<nat>, tail: bool, framed: bool, open: seq<nat>) returns (shape: Shape)
    requires e.Call? && (tail ==> framed && open == [])
    ensures var r := Compile(g, e, scope, depth, requests, indirect, tail);
      Piece(r.words, shape, framed, open, Some(open)) && WordsFit(r.words)
    decreases e, 0
  {
    hide Piece, WordsFit;
    var c := Compile(g, e.f, scope, depth, requests, indirect, false);
    var sc := CompilePiece(g, e.f, scope, depth, requests, indirect, false, framed, open);
    if IsImmediate(g, e, scope) {
      var a := Compile(g, e.args[0], scope, depth, c.requests, c.indirect, false);
      var sa := CompilePiece(g, e.args[0], scope, depth, c.requests, c.indirect, false, framed, open);
      var op, w := ImmediateOp(g.modules[e.f.x].op), Long(e.args[1].i);
      var so := LoadPiece(op, w, framed, open);
      var s1 := PieceJoin(c.words, sc, a.words, sa, framed, open, open, Some(open));
      shape := PieceJoin(c.words + a.words, s1, [Op(op), w], so, framed, open, open, Some(open));
      WordsJoin(c.words, a.words);
      WordsJoin(c.words + a.words, [Op(op), w]);
    } else {
      var n := |e.args|;
      var a := CompileArgs(g, e.args, 0, scope, depth + FrameSize(n), c.requests, c.indirect);
      var sa := ArgsPiece(g, e.args, 0, scope, depth + FrameSize(n), c.requests, c.indirect, framed, [n] + open);
      var made, op := [Op(CREATE_FRAME), Long(n)], if tail then TAIL else CALL;
      var sm := PieceTwo(CREATE_FRAME, Long(n), framed, open, [n] + open);
      assert ([n] + open)[1..] == open;
      var so := PieceOne(op, framed, [n] + open, Some(open));
      var s1 := PieceJoin(c.words, sc, made, sm, framed, open, open, Some([n] + open));
      var s2 := PieceJoin(c.words + made, s1, a.words, sa, framed, open, [n] + open, Some([n] + open));
      shape := PieceJoin(c.words + made + a.words, s2, [Op(op)], so, framed, open, [n] + open, Some(open));
      PlainFits(CREATE_FRAME, n);
      PlainFits(op, 0);
      WordsJoin(c.words, made);
      WordsJoin(c.words + made, a.words);
      WordsJoin(c.words + made + a.words, [Op(op)]);
    }
  }

  // --- whole programs

  lemma {:induction false} FormFits(g: Globals, v: Value)
    ensures CellFits(Form(g, v))
    decreases v
  {
    match v
    case PairV(a, b) =>
      FormFits(g, a);
      FormFits(g, b);
    case Closure(params, init, last, env) =>
      LambdaRequests(g, params, init, last, ScopeOf(env));
      LambdaFits(g, Lambda(params, init, last), ScopeOf(env));
      var (code, wanted) := CompileLambda(g, params, init, last, ScopeOf(env));
      hide CompileInit, Compile, CodeFits;
      assert CodeFits(code, true);
      if wanted != [] {
        forall j | 0 <= j < |wanted| ensures CellFits(Form(g, v).env[j]) {
          var k := Binder(ScopeOf(env), wanted[j]);
          FormFits(g, env[k].bindings[IndexOf(env[k].Names(), wanted[j])].val);
        }
      }
    case _ =>
  }

  lemma DefsOfFit(g: Globals)
    ensures DefsFit(DefsOf(g))
  {
    forall x | x in g.defs ensures CellFits(DefsOf(g)[x]) {
      FormFits(g, g.defs[x]);
    }
    hide CellFits;
  }

  lemma StartFramed(g: Globals, e: Expr)
    ensures Framed(Start(g, e))
  {
    hide Piece, Compile;
    var r := Compile(g, e, [], 0, [], [], false);
    var sr := CompilePiece(g, e, [], 0, [], [], false, false, []);
    var so := PieceOne(RET, false, [], None);
    var shape := PieceJoin(r.words, sr, [Op(RET)], so, false, [], [], None);
    PlainFits(RET, 0);
    WordsJoin(r.words, [Op(RET)]);
    PieceStarts(r.words + [Op(RET)], shape, false);
    LaidFrom(shape, BASE, Program(g, e), 0, []);
    hide WordsFit;
  }

  /** At every step of every compiled program the stack is whole frames down to the one at the bottom, and every
      call that has not returned has its own, with the code that runs in it as the callee. */
  lemma EveryCallHasItsFrame(g: Globals, e: Expr, n: nat)
    ensures var m := Steps(DefsOf(g), Start(g, e), n);
      m.Running? ==> WholeFrames(m.stack) && Backed(m.stack, m.code, m.rp)
  {
    hide Steps, Start, DefsOf, DefsFit, CellsOf, Laid, WholeFrames, Backed;
    DefsOfFit(g);
    StartFramed(g, e);
    StepsFramed(DefsOf(g), Start(g, e), n);
    var m := Steps(DefsOf(g), Start(g, e), n);
    if m.Running? {
      LaidMeans(m.stack, m.code, m.ip, m.rp);
    }
  }

  /** No program ever runs into a word, a slot or a frame that is not there. */
  lemma NeverWild(g: Globals, e: Expr, n: nat)
    ensures Steps(DefsOf(g), Start(g, e), n) != Wild
  {
    hide Steps, Start, DefsOf, Eval, Form;
    var defs, m := DefsOf(g), Start(g, e);
    var k := SimProgram(g, e, n);
    if n <= k {
      StepsAdd(defs, m, n, k - n);
      if Steps(defs, m, n) == Wild {
        StoppedStays(defs, Wild, k - n);
      }
    } else {
      StepsAdd(defs, m, k, n - k);
      StoppedStays(defs, Steps(defs, m, k), n - k);
    }
  }

  // --- a frame being made for the empty list

  const IDENTITY := Lambda(["x"], [], Var("x"))

  /** Applies its argument, the empty list, to the result of a call. */
  const NIL_CALLED := Call(Lambda(["f"], [], Call(Var("f"), [Call(IDENTITY, [Num(1)])])), [Quote(NilD)])

  const IDENTITY_CODE := Code(["x"], [], [Op(LOAD_RELATIVE), Rel(Ref(2, false)), Op(RET)])

  const NIL_CODE := Code(["f"], [], [Op(LOAD_RELATIVE), Rel(Ref(2, false)), Op(CREATE_FRAME), Long(1)] + INNER_WORDS
    + [Op(STORE), Long(2), Op(TAIL), Op(RET)])

  lemma OneArg(g: Globals, a: Expr, scope: seq<seq<Symbol>>, depth: nat, words: seq<Word>)
    requires Compile(g, a, scope, depth, [], [], false) == Gen(words, [], [])
    ensures CompileArgs(g, [a], 0, scope, depth, [], []) == Gen(words + [Op(STORE), Long(2)], [], [])
  {
    assert [a][1..] == [];
    assert CompileArgs(g, [a][1..], 1, scope, depth, [], []) == Gen([], [], []);
    assert words + [Op(STORE), Long(2)] + [] == words + [Op(STORE), Long(2)];
  }

  /** A call with one argument. */
  lemma CallCompiles(g: Globals, f: Expr, a: Expr, scope: seq<seq<Symbol>>, depth: nat, fw: seq<Word>, aw: seq<Word>,
                     tail: bool)
    requires Compile(g, f, scope, depth, [], [], false) == Gen(fw, [], [])
    requires Compile(g, a, scope, depth + FrameSize(1), [], [], false) == Gen(aw, [], [])
    ensures Compile(g, Call(f, [a]), scope, depth, [], [], tail) ==
      Gen(fw + [Op(CREATE_FRAME), Long(1)] + (aw + [Op(STORE), Long(2)]) + [Op(if tail then TAIL else CALL)], [], [])
  {
    OneArg(g, a, scope, depth + FrameSize(1), aw);
    assert !IsImmediate(g, Call(f, [a]), scope);
    hide IsImmediate;
  }

  /** A variable of the own frame. */
  lemma OwnCompiles(g: Globals, x: Symbol, scope: seq<seq<Symbol>>, tail: bool)
    ensures Compile(g, Var(x), [[x]] + scope, 0, [], [], tail) == Gen([Op(LOAD_RELATIVE), Rel(Ref(2, false))], [], [])
  {
    var inner := [[x]] + scope;
    assert inner[0] == [x] && IndexOf(inner[0], x) == 0;
    assert InScope(inner, x);
  }

  /** A lambda with one parameter and nothing to carry. */
  lemma LambdaCompiles(g: Globals, x: Symbol, body: Expr, scope: seq<seq<Symbol>>, depth: nat, words: seq<Word>)
    requires Compile(g, body, [[x]] + scope, 0, [], [], true) == Gen(words, [], [])
    ensures Compile(g, Lambda([x], [], body), scope, depth, [], [], false) ==
      Gen([Op(LOAD), Lit(CodeC(Code([x], [], words + [Op(RET)])))], [], [])
  {
    assert CompileInit(g, [], [[x]] + scope, [], []) == Gen([], [], []);
    assert [] + words + [Op(RET)] == words + [Op(RET)];
  }

  lemma IdentityCompiles(g: Globals, scope: seq<seq<Symbol>>, depth: nat)
    ensures Compile(g, IDENTITY, scope, depth, [], [], false) == Gen([Op(LOAD), Lit(CodeC(IDENTITY_CODE))], [], [])
  {
    hide Compile;
    OwnCompiles(g, "x", scope, true);
    LambdaCompiles(g, "x", Var("x"), scope, depth, [Op(LOAD_RELATIVE), Rel(Ref(2, false))]);
    assert [Op(LOAD_RELATIVE), Rel(Ref(2, false))] + [Op(RET)] == IDENTITY_CODE.words;
  }

  lemma NumCompiles(g: Globals, e: Expr, scope: seq<seq<Symbol>>, depth: nat)
    requires e == Num(1) || e == Quote(NilD)
    ensures Compile(g, e, scope, depth, [], [], false) ==
      Gen([Op(LOAD), Lit(if e == Num(1) then IntC(1) else NilC)], [], [])
  {
  }

  const INNER_WORDS: seq<Word> :=
    [Op(LOAD), Lit(CodeC(IDENTITY_CODE)), Op(CREATE_FRAME), Long(1), Op(LOAD), Lit(IntC(1)), Op(STORE), Long(2),
     Op(CALL)]

  lemma InnerCompiles(g: Globals, scope: seq<seq<Symbol>>, depth: nat)
    ensures Compile(g, Call(IDENTITY, [Num(1)]), scope, depth, [], [], false) == Gen(INNER_WORDS, [], [])
  {
    hide Compile;
    IdentityCompiles(g, scope, depth);
    NumCompiles(g, Num(1), scope, depth + FrameSize(1));
    var fw, aw := [Op(LOAD), Lit(CodeC(IDENTITY_CODE))], [Op(LOAD), Lit(IntC(1))];
    CallCompiles(g, IDENTITY, Num(1), scope, depth, fw, aw, false);
    assert fw + [Op(CREATE_FRAME), Long(1)] + (aw + [Op(STORE), Long(2)]) + [Op(CALL)] == INNER_WORDS;
  }

  lemma AppliedCompiles(g: Globals, x: Symbol, a: Expr, words: seq<Word>)
    requires Compile(g, a, [[x]] + [], 0 + FrameSize(1), [], [], false) == Gen(words, [], [])
    ensures Compile(g, Lambda([x], [], Call(Var(x), [a])), [], 0, [], [], false) ==
      Gen([Op(LOAD), Lit(CodeC(Code([x], [], [Op(LOAD_RELATIVE), Rel(Ref(2, false)), Op(CREATE_FRAME), Long(1)] + words
        + [Op(STORE), Long(2), Op(TAIL), Op(RET)])))], [], [])
  {
    hide Compile;
    OwnCompiles(g, x, [], false);
    var vw := [Op(LOAD_RELATIVE), Rel(Ref(2, false))];
    CallCompiles(g, Var(x), a, [[x]] + [], 0, vw, words, true);
    var bw := vw + [Op(CREATE_FRAME), Long(1)] + (words + [Op(STORE), Long(2)]) + [Op(TAIL)];
    LambdaCompiles(g, x, Call(Var(x), [a]), [], 0, bw);
    assert bw + [Op(RET)] == [Op(LOAD_RELATIVE), Rel(Ref(2, false)), Op(CREATE_FRAME), Long(1)] + words
      + [Op(STORE), Long(2), Op(TAIL), Op(RET)];
  }

  lemma NilCodeCompiles(g: Globals)
    ensures Compile(g, NIL_CALLED.f, [], 0, [], [], false) == Gen([Op(LOAD), Lit(CodeC(NIL_CODE))], [], [])
  {
    hide Compile;
    InnerCompiles(g, [["f"]] + [], 0 + FrameSize(1));
    AppliedCompiles(g, "f", Call(IDENTITY, [Num(1)]), INNER_WORDS);
  }

  const NIL_PROGRAM := Code([], [],
    [Op(LOAD), Lit(CodeC(NIL_CODE)), Op(CREATE_FRAME), Long(1), Op(LOAD), Lit(NilC), Op(STORE), Long(2), Op(CALL),
     Op(RET)])

  lemma NilProgram(g: Globals)
    ensures Program(g, NIL_CALLED) == NIL_PROGRAM
  {
    hide Compile;
    NilCodeCompiles(g);
    NumCompiles(g, Quote(NilD), [], FrameSize(1));
    var fw, aw := [Op(LOAD), Lit(CodeC(NIL_CODE))], [Op(LOAD), Lit(NilC)];
    CallCompiles(g, NIL_CALLED.f, Quote(NilD), [], 0, fw, aw, false);
    assert fw + [Op(CREATE_FRAME), Long(1)] + (aw + [Op(STORE), Long(2)]) + [Op(CALL)] + [Op(RET)] == NIL_PROGRAM.words;
  }

  /** The stack while the code above runs its inner call, and after it. */
  const NIL_STACK: seq<Cell> := [NilC, IntC(1), IntC(0), CodeC(NIL_CODE), IntC(1), NilC] + BASE

  predicate Reads(m: Machine, op: Opcode, w: Word) {
    m.Running? && m.ip + 1 < |m.code.words| && m.code.words[m.ip] == Op(op) && m.code.words[m.ip + 1] == w
  }

  lemma DoLoad(defs: map<Symbol, Cell>, m: Machine, v: Cell)
    requires Reads(m, LOAD, Lit(v))
    ensures Step(defs, m) == m.(d1 := v, ip := m.ip + 2)
  {
  }

  lemma DoLoadSlot(defs: map<Symbol, Cell>, m: Machine, k: nat)
    requires Reads(m, LOAD_RELATIVE, Rel(Ref(k, false))) && k < |m.stack|
    ensures Step(defs, m) == m.(d1 := Unbox(m.stack[k]), ip := m.ip + 2)
  {
  }

  lemma DoFrame(defs: map<Symbol, Cell>, m: Machine)
    requires Reads(m, CREATE_FRAME, Long(1))
    ensures Step(defs, m) == m.(stack := [m.d1, IntC(1), IntC(0)] + m.stack, ip := m.ip + 2)
  {
    assert [m.d1, IntC(1)] + seq(1, _ => IntC(0)) + m.stack == [m.d1, IntC(1), IntC(0)] + m.stack;
  }

  lemma DoStore(defs: map<Symbol, Cell>, m: Machine, callee: Cell, rest: seq<Cell>)
    requires Reads(m, STORE, Long(2)) && m.stack == [callee, IntC(1), IntC(0)] + rest
    ensures Step(defs, m) == m.(stack := [callee, IntC(1), m.d1] + rest, ip := m.ip + 2)
  {
    assert m.stack[2 := m.d1] == [callee, IntC(1), m.d1] + rest;
  }

  lemma DoCall(defs: map<Symbol, Cell>, m: Machine, code: Code, a: Cell, rest: seq<Cell>)
    requires m.Running? && m.ip < |m.code.words| && m.code.words[m.ip] == Op(CALL)
    requires m.stack == [CodeC(code), IntC(1), a] + rest && |code.vars| == 1 && code.indirect == []
    ensures Step(defs, m) == Running(m.d1, code, 0, m.stack, [Return(m.code, m.ip, m.ep)] + m.rp, [])
  {
  }

  lemma DoRet(defs: map<Symbol, Cell>, m: Machine, callee: Cell, a: Cell, rest: seq<Cell>, r: Return, rp: seq<Return>)
    requires m.Running? && m.ip < |m.code.words| && m.code.words[m.ip] == Op(RET)
    requires m.stack == [callee, IntC(1), a] + rest && m.rp == [r] + rp
    ensures Step(defs, m) == Running(m.d1, r.code, r.ip + 1, rest, rp, r.ep)
  {
    assert Pop(m.stack) == rest;
  }

  lemma OneMore(defs: map<Symbol, Cell>, m0: Machine, n: nat, m: Machine)
    requires Steps(defs, m0, n) == m
    ensures Steps(defs, m0, n + 1) == Step(defs, m)
  {
    StepsAdd(defs, m0, n, 1);
    assert Steps(defs, Step(defs, m), 0) == Step(defs, m);
    hide Step;
  }

  /** The frame for a call of known code with one known argument. */
  lemma Prepares(defs: map<Symbol, Cell>, m0: Machine, c: Cell, v: Cell)
    requires Reads(m0, LOAD, Lit(c)) && Reads(m0.(ip := m0.ip + 2), CREATE_FRAME, Long(1))
    requires Reads(m0.(ip := m0.ip + 4), LOAD, Lit(v)) && Reads(m0.(ip := m0.ip + 6), STORE, Long(2))
    ensures Steps(defs, m0, 4) == m0.(d1 := v, ip := m0.ip + 8, stack := [c, IntC(1), v] + m0.stack)
  {
    hide Step;
    assert Steps(defs, m0, 0) == m0;
    hide Steps;
    DoLoad(defs, m0, c);
    OneMore(defs, m0, 0, m0);
    var m1 := m0.(d1 := c, ip := m0.ip + 2);
    DoFrame(defs, m1);
    OneMore(defs, m0, 1, m1);
    var m2 := m1.(stack := [c, IntC(1), IntC(0)] + m0.stack, ip := m0.ip + 4);
    DoLoad(defs, m2, v);
    OneMore(defs, m0, 2, m2);
    var m3 := m2.(d1 := v, ip := m0.ip + 6);
    DoStore(defs, m3, c, m0.stack);
    OneMore(defs, m0, 3, m3);
  }

  lemma ToNilCode(defs: map<Symbol, Cell>, m0: Machine)
    requires m0 == Running(NilC, NIL_PROGRAM, 0, BASE, [], [])
    ensures Steps(defs, m0, 5) ==
      Running(NilC, NIL_CODE, 0, [CodeC(NIL_CODE), IntC(1), NilC] + BASE, [Return(NIL_PROGRAM, 8, [])], [])
  {
    hide Step, Steps;
    Prepares(defs, m0, CodeC(NIL_CODE), NilC);
    var m4 := Running(NilC, NIL_PROGRAM, 8, [CodeC(NIL_CODE), IntC(1), NilC] + BASE, [], []);
    DoCall(defs, m4, NIL_CODE, NilC, BASE);
    OneMore(defs, m0, 4, m4);
    assert [Return(NIL_PROGRAM, 8, [])] + [] == [Return(NIL_PROGRAM, 8, [])];
  }

  lemma ToCallee(defs: map<Symbol, Cell>, m0: Machine)
    requires m0.Running? && m0.code == NIL_CODE && m0.ip == 0 && |m0.stack| > 2 && m0.stack[2] == NilC
    ensures Steps(defs, m0, 2) == m0.(d1 := NilC, stack := [NilC, IntC(1), IntC(0)] + m0.stack, ip := 4)
  {
    hide Step;
    assert Steps(defs, m0, 0) == m0;
    hide Steps;
    DoLoadSlot(defs, m0, 2);
    OneMore(defs, m0, 0, m0);
    DoFrame(defs, m0.(d1 := NilC, ip := 2));
    OneMore(defs, m0, 1, m0.(d1 := NilC, ip := 2));
  }

  lemma ToInnerCall(defs: map<Symbol, Cell>, m0: Machine)
    requires m0.Running? && m0.code == NIL_CODE && m0.ip == 4
    ensures Steps(defs, m0, 4) ==
      m0.(d1 := IntC(1), ip := 12, stack := [CodeC(IDENTITY_CODE), IntC(1), IntC(1)] + m0.stack)
  {
    hide Step, Steps;
    Prepares(defs, m0, CodeC(IDENTITY_CODE), IntC(1));
  }

  lemma InnerCallReturns(defs: map<Symbol, Cell>, m0: Machine, own: seq<Cell>, rp: seq<Return>)
    requires m0 == Running(IntC(1), NIL_CODE, 12, [CodeC(IDENTITY_CODE), IntC(1), IntC(1)] + own, rp, [])
    ensures Steps(defs, m0, 2).Running? && Steps(defs, m0, 2).code.words[Steps(defs, m0, 2).ip] == Op(RET)
    ensures Steps(defs, m0, 3) == Running(IntC(1), NIL_CODE, 13, own, rp, [])
  {
    hide Step;
    assert Steps(defs, m0, 0) == m0;
    hide Steps;
    DoCall(defs, m0, IDENTITY_CODE, IntC(1), own);
    OneMore(defs, m0, 0, m0);
    var r := Return(NIL_CODE, 12, []);
    var m1 := Running(IntC(1), IDENTITY_CODE, 0, m0.stack, [r] + rp, []);
    DoLoadSlot(defs, m1, 2);
    OneMore(defs, m0, 1, m1);
    var m2 := m1.(ip := 2);
    DoRet(defs, m2, CodeC(IDENTITY_CODE), IntC(1), own, r, rp);
    OneMore(defs, m0, 2, m2);
  }

  /** When the inner call returns, which is when a collection may come, the frame on top calls the empty list, so
      that the collector stops there, above the frame of the code that is running. */
  lemma NilFrameOnTop(g: Globals)
    ensures Steps(DefsOf(g), Start(g, NIL_CALLED), 14) ==
      Running(IntC(1), NIL_CODE, 13, NIL_STACK, [Return(NIL_PROGRAM, 8, [])], [])
    ensures NIL_STACK[0] == NilC && FrameAt(NIL_STACK, 3, NIL_CODE)
  {
    hide Steps;
    NilProgram(g);
    var defs, m0, r := DefsOf(g), Start(g, NIL_CALLED), [Return(NIL_PROGRAM, 8, [])];
    ToNilCode(defs, m0);
    var m5 := Running(NilC, NIL_CODE, 0, [CodeC(NIL_CODE), IntC(1), NilC] + BASE, r, []);
    ToCallee(defs, m5);
    StepsAdd(defs, m0, 5, 2);
    var own := [NilC, IntC(1), IntC(0)] + m5.stack;
    var m7 := m5.(stack := own, ip := 4);
    ToInnerCall(defs, m7);
    StepsAdd(defs, m0, 7, 4);
    var m11 := Running(IntC(1), NIL_CODE, 12, [CodeC(IDENTITY_CODE), IntC(1), IntC(1)] + own, r, []);
    InnerCallReturns(defs, m11, own, r);
    StepsAdd(defs, m0, 11, 3);
    assert own == NIL_STACK;
    assert NIL_STACK[3] == CodeC(NIL_CODE) && NIL_STACK[3..][1] == IntC(1);
  }
}
