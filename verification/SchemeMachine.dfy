/** The stack machine: threaded code, a parameter stack addressed from its top, a return
    stack, and the environment of the running closure. */
module SchemeMachine {
  import opened Wrappers
  import opened Scheme

  datatype Opcode =
    | LOAD | LOAD_RELATIVE | STORE | CDR | BF | BRA | CREATE_FRAME | CALL | TAIL | RET | CREATE_LAMBDA
    | ADDI | SUBI | MULI | DIVI

  /** A slot of the parameter stack (or of the environment), counted from its base. */
  datatype Ref = Ref(offset: nat, inEnv: bool)

  datatype Word =
    | Op(op: Opcode)
    | Long(n: int)
    | Lit(v: Cell)
    | Rel(r: Ref)
    | Global(x: Symbol)
    | Template(code: Code, refs: seq<Ref>)

  /** A compiled lambda: its variables, the argument slots to box on entry, and its words. */
  datatype Code = Code(vars: seq<Symbol>, indirect: seq<nat>, words: seq<Word>)

  datatype Cell =
    | IntC(i: int)
    | BoolC(b: bool)
    | NilC
    | SymC(name: Symbol)
    | PairC(first: Cell, rest: Cell)
    | PrimC(p: Prim)
    | CodeC(code: Code)
    | LambdaC(code: Code, env: seq<Cell>)
    | Box(v: Cell)

  datatype Return = Return(code: Code, ip: nat, ep: seq<Cell>)

  /** The registers.  The stack is listed from its top, so stack[i] is sp[i]. */
  datatype Machine =
    | Running(d1: Cell, code: Code, ip: nat, stack: seq<Cell>, rp: seq<Return>, ep: seq<Cell>)
    | Halted(result: Cell)
    | Thrown
    | Wild

  predicate AllIntCells(cs: seq<Cell>) {
    forall i :: 0 <= i < |cs| ==> cs[i].IntC?
  }

  function IntCells(cs: seq<Cell>): (xs: seq<int>)
    requires AllIntCells(cs)
    ensures |xs| == |cs|
  {
    seq(|cs|, i requires 0 <= i < |cs| => cs[i].i)
  }

  /** A library procedure; None when it throws. */
  function CallPrim(p: Prim, cs: seq<Cell>): Option<Cell> {
    match p
    case Cons => if |cs| == 2 then Some(PairC(cs[0], cs[1])) else None
    case Car => if |cs| == 1 && cs[0].PairC? then Some(cs[0].first) else None
    case Cdr => if |cs| == 1 && cs[0].PairC? then Some(cs[0].rest) else None
    case IsPair => if |cs| == 1 then Some(BoolC(cs[0].PairC?)) else None
    case Arith(op) =>
      if !AllIntCells(cs) then None
      else
        match Arithmetic(op, IntCells(cs))
        case None => None
        case Some(i) => Some(IntC(i))
  }

  /** The words of a frame: callee, argument count and arguments. */
  function FrameSize(argc: nat): nat {
    argc + 2
  }

  predicate HasFrame(stack: seq<Cell>) {
    |stack| >= 2 && stack[1].IntC? && 0 <= stack[1].i <= |stack| - 2
  }

  function Pop(stack: seq<Cell>): seq<Cell>
    requires HasFrame(stack)
  {
    stack[FrameSize(stack[1].i)..]
  }

  function Args(stack: seq<Cell>): seq<Cell>
    requires HasFrame(stack)
  {
    stack[2..FrameSize(stack[1].i)]
  }

  /** Boxes the captured argument slots, one after the other. */
  function ToIndirect(stack: seq<Cell>, offsets: seq<nat>): (r: seq<Cell>)
    requires forall i :: 0 <= i < |offsets| ==> offsets[i] < |stack|
    ensures |r| == |stack|
    decreases |offsets|
  {
    if offsets == [] then stack
    else ToIndirect(stack[offsets[0] := Box(stack[offsets[0]])], offsets[1..])
  }

  predicate RefsValid(refs: seq<Ref>, stack: seq<Cell>, ep: seq<Cell>) {
    forall i :: 0 <= i < |refs| ==> refs[i].offset < if refs[i].inEnv then |ep| else |stack|
  }

  function Fetch(r: Ref, stack: seq<Cell>, ep: seq<Cell>): Cell
    requires r.offset < if r.inEnv then |ep| else |stack|
  {
    if r.inEnv then ep[r.offset] else stack[r.offset]
  }

  /** Copies the captured slots, boxes and all. */
  function CreateClosure(refs: seq<Ref>, stack: seq<Cell>, ep: seq<Cell>): (env: seq<Cell>)
    requires RefsValid(refs, stack, ep)
    ensures |env| == |refs|
  {
    seq(|refs|, i requires 0 <= i < |refs| => Fetch(refs[i], stack, ep))
  }

  function Unbox(c: Cell): Cell {
    if c.Box? then c.v else c
  }

  /** Starts the code of the callee whose frame is on top of the stack. */
  function Enter(m: Machine, code: Code, ep: seq<Cell>): Machine
    requires m.Running? && HasFrame(m.stack)
  {
    if m.stack[1].i != |code.vars| then Thrown
    else if exists i :: 0 <= i < |code.indirect| && code.indirect[i] >= |m.stack| then Wild
    else m.(code := code, ip := 0, stack := ToIndirect(m.stack, code.indirect), ep := ep)
  }

  /** Replaces the caller's frame, which lies just under the callee's, by the callee's. */
  function DropCaller(stack: seq<Cell>): seq<Cell>
    requires HasFrame(stack) && HasFrame(Pop(stack))
  {
    stack[..FrameSize(stack[1].i)] + Pop(Pop(stack))
  }

  function StepCall(m: Machine): Machine
    requires m.Running?
  {
    if !HasFrame(m.stack) then Wild
    else
      var called := m.(rp := [Return(m.code, m.ip, m.ep)] + m.rp);
      match m.stack[0]
      case CodeC(code) => Enter(called, code, [])
      case LambdaC(code, env) => Enter(called, code, env)
      case PrimC(p) =>
        (match CallPrim(p, Args(m.stack))
         case None => Thrown
         case Some(c) => m.(d1 := c, stack := Pop(m.stack), ip := m.ip + 1))
      case _ => Thrown
  }

  function StepTail(m: Machine): Machine
    requires m.Running?
  {
    if !HasFrame(m.stack) then Wild
    else
      match m.stack[0]
      case CodeC(code) =>
        if !HasFrame(Pop(m.stack)) then Wild
        else Enter(m.(stack := DropCaller(m.stack)), code, m.ep)
      case LambdaC(code, env) =>
        if !HasFrame(Pop(m.stack)) then Wild
        else Enter(m.(stack := DropCaller(m.stack)), code, env)
      case PrimC(p) =>
        (match CallPrim(p, Args(m.stack))
         case None => Thrown
         case Some(c) => m.(d1 := c, stack := Pop(m.stack), ip := m.ip + 1))
      case _ => Thrown
  }

  function StepRet(m: Machine): Machine
    requires m.Running?
  {
    if m.rp == [] then Halted(m.d1)
    else if !HasFrame(m.stack) then Wild
    else Running(m.d1, m.rp[0].code, m.rp[0].ip + 1, Pop(m.stack), m.rp[1..], m.rp[0].ep)
  }

  /** ADDI, SUBI, MULI and DIVI: arithmetic with a literal second operand. */
  function StepArith(m: Machine, op: ArithOp, w: Word): Machine
    requires m.Running?
  {
    if !w.Long? then Wild
    else if !m.d1.IntC? then Thrown
    else
      match Combine(op, m.d1.i, w.n)
      case None => Thrown
      case Some(i) => m.(d1 := IntC(i), ip := m.ip + 2)
  }

  function Branch(m: Machine, w: Word): Machine
    requires m.Running?
  {
    if w.Long? && m.ip + w.n >= 0 then m.(ip := m.ip + w.n) else Wild
  }

  /** The instructions that have an operand in the next word. */
  function StepOperand(defs: map<Symbol, Cell>, m: Machine, op: Opcode, w: Word): Machine
    requires m.Running?
  {
    match op
    case LOAD => if w.Lit? then m.(d1 := w.v, ip := m.ip + 2) else Wild
    case LOAD_RELATIVE =>
      if w.Rel? && RefsValid([w.r], m.stack, m.ep)
      then m.(d1 := Unbox(Fetch([w.r][0], m.stack, m.ep)), ip := m.ip + 2) else Wild
    case STORE =>
      if w.Long? && 0 <= w.n < |m.stack| then m.(stack := m.stack[w.n := m.d1], ip := m.ip + 2) else Wild
    case CDR =>
      if !w.Global? then Wild
      else if w.x !in defs then Thrown
      else m.(d1 := defs[w.x], ip := m.ip + 2)
    case BF => if m.d1 != BoolC(false) then m.(ip := m.ip + 2) else Branch(m, w)
    case BRA => Branch(m, w)
    case CREATE_FRAME =>
      if w.Long? && w.n >= 0
      then m.(stack := [m.d1, IntC(w.n)] + seq(w.n, _ => IntC(0)) + m.stack, ip := m.ip + 2) else Wild
    case CREATE_LAMBDA =>
      if w.Template? && RefsValid(w.refs, m.stack, m.ep)
      then m.(d1 := LambdaC(w.code, CreateClosure(w.refs, m.stack, m.ep)), ip := m.ip + 2) else Wild
    case ADDI => StepArith(m, Add, w)
    case SUBI => StepArith(m, Sub, w)
    case MULI => StepArith(m, Mul, w)
    case DIVI => StepArith(m, Div, w)
    case _ => Wild
  }

  /** One instruction. */
  function Step(defs: map<Symbol, Cell>, m: Machine): Machine {
    if !m.Running? then m
    else if m.ip >= |m.code.words| || !m.code.words[m.ip].Op? then Wild
    else
      match m.code.words[m.ip].op
      case CALL => StepCall(m)
      case TAIL => StepTail(m)
      case RET => StepRet(m)
      case op => if m.ip + 1 < |m.code.words| then StepOperand(defs, m, op, m.code.words[m.ip + 1]) else Wild
  }

  function Steps(defs: map<Symbol, Cell>, m: Machine, n: nat): Machine
    decreases n
  {
    if n == 0 then m else Steps(defs, Step(defs, m), n - 1)
  }

  lemma {:induction false} StepsAdd(defs: map<Symbol, Cell>, m: Machine, a: nat, b: nat)
    ensures Steps(defs, m, a + b) == Steps(defs, Steps(defs, m, a), b)
    decreases a
  {
    if a > 0 {
      StepsAdd(defs, Step(defs, m), a - 1, b);
    }
  }
}
