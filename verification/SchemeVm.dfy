/** The machine as it runs: registers, a parameter stack in a fixed array that grows down,
    and a bounded return stack.  Each instruction does in place what the step function says. */
module SchemeVm {
  import opened Wrappers
  import opened Scheme
  import opened SchemeMachine

  const MAX_CALLS := 511

  datatype Status = Next | Done(result: Cell) | Throws | Overflows

  class Vm {
    const params: array<Cell>
    var sp: nat
    var d1: Cell
    var code: Code
    var ip: nat
    var rp: seq<Return>
    var ep: seq<Cell>

    ghost predicate Valid()
      reads this
    {
      sp <= params.Length
    }

    ghost function Stack(): seq<Cell>
      reads this, params
      requires Valid()
    {
      params[sp..]
    }

    ghost function State(): (m: Machine)
      reads this, params
      requires Valid()
      ensures m.Running?
    {
      Running(d1, code, ip, Stack(), rp, ep)
    }

    constructor (program: Code, size: nat)
      requires size >= 2
      ensures Valid() && fresh(params) && params.Length == size
      ensures State() == Running(NilC, program, 0, [NilC, IntC(0)], [], [])
    {
      params := new Cell[size](_ => NilC);
      sp := size - 2;
      d1, code, ip, rp, ep := NilC, program, 0, [], [];
      new;
      params[sp + 1] := IntC(0);
      assert params[sp..] == [NilC, IntC(0)];
    }

    method Store(k: nat, c: Cell)
      requires Valid() && k < |Stack()|
      modifies params
      ensures Stack() == old(Stack())[k := c]
    {
      params[sp + k] := c;
    }

    /** Makes room for a frame and clears its argument slots; false if there is none. */
    method CreateFrame(argc: nat) returns (ok: bool)
      requires Valid()
      modifies this`sp, params
      ensures Valid() && ok == (FrameSize(argc) <= old(sp))
      ensures ok ==> Stack() == [d1, IntC(argc)] + seq(argc, _ => IntC(0)) + old(Stack())
      ensures !ok ==> Stack() == old(Stack())
    {
      ok := FrameSize(argc) <= sp;
      if ok {
        sp := sp - FrameSize(argc);
        params[sp] := d1;
        params[sp + 1] := IntC(argc);
        for i := 0 to argc
          invariant params[sp] == d1 && params[sp + 1] == IntC(argc)
          invariant forall k :: sp + 2 <= k < sp + 2 + i ==> params[k] == IntC(0)
          invariant forall k :: sp + FrameSize(argc) <= k < params.Length ==> params[k] == old(params[k])
          modifies params
        {
          params[sp + 2 + i] := IntC(0);
        }
      }
    }

    /** Puts the captured arguments of the entered lambda into boxes. */
    method BoxArguments(offsets: seq<nat>)
      requires Valid() && forall i :: 0 <= i < |offsets| ==> offsets[i] < |Stack()|
      modifies params
      ensures Stack() == ToIndirect(old(Stack()), offsets)
    {
      ghost var goal := ToIndirect(Stack(), offsets);
      assert offsets[0..] == offsets;
      for i := 0 to |offsets|
        invariant ToIndirect(Stack(), offsets[i..]) == goal
      {
        assert offsets[i..][0] == offsets[i] && offsets[i..][1..] == offsets[i + 1..];
        Store(offsets[i], Box(params[sp + offsets[i]]));
      }
    }

    method CopySlots(refs: seq<Ref>) returns (env: seq<Cell>)
      requires Valid() && RefsValid(refs, Stack(), ep)
      ensures env == CreateClosure(refs, Stack(), ep)
    {
      env := [];
      for i := 0 to |refs|
        invariant |env| == i
        invariant forall j :: 0 <= j < i ==> env[j] == Fetch(refs[j], Stack(), ep)
      {
        var r := refs[i];
        env := env + [if r.inEnv then ep[r.offset] else params[sp + r.offset]];
      }
    }

    /** Copies len words up by below words.  The two places overlap, so the copy runs from
        the far end. */
    method CopyUp(current: nat, below: nat, len: nat)
      requires current + below + len <= params.Length
      modifies params
      ensures params[current + below..current + below + len] == old(params[current..current + len])
      ensures params[current + below + len..] == old(params[current + below + len..])
    {
      ghost var was := params[..];
      var i := len;
      while i > 0
        invariant 0 <= i <= len
        invariant forall k :: 0 <= k < current + below + i ==> params[k] == was[k]
        invariant forall k :: current + below + i <= k < current + below + len ==> params[k] == was[k - below]
        invariant forall k :: current + below + len <= k < params.Length ==> params[k] == was[k]
      {
        i := i - 1;
        params[current + below + i] := params[current + i];
      }
    }

    /** Moves the top frame over the frame below it. */
    method MoveFrame()
      requires Valid() && HasFrame(Stack()) && HasFrame(Pop(Stack()))
      modifies this`sp, params
      ensures Valid() && Stack() == DropCaller(old(Stack()))
    {
      ghost var was := params[..];
      ghost var stack := Stack();
      var current := sp;
      var len := FrameSize(params[current + 1].i);
      var below := FrameSize(params[current + len + 1].i);
      assert was[current..] == stack;
      CopyUp(current, below, len);
      sp := sp + below;
      assert Stack() == was[current..current + len] + was[current + below + len..];
      Moved(was, current, len, below);
    }

    lemma Moved(was: seq<Cell>, current: nat, len: nat, below: nat)
      requires current <= |was| && HasFrame(was[current..]) && len == FrameSize(was[current + 1].i)
      requires HasFrame(Pop(was[current..])) && below == FrameSize(was[current + len + 1].i)
      ensures current + below + len <= |was|
      ensures was[current..current + len] + was[current + below + len..] == DropCaller(was[current..])
    {
      assert Pop(was[current..]) == was[current + len..];
      assert Pop(Pop(was[current..])) == was[current + len + below..];
    }

    /** Starts the callee whose frame is on top; false if the argument count is wrong. */
    method Begin(callee: Code, env: seq<Cell>) returns (ok: bool)
      requires Valid() && HasFrame(Stack()) && Enter(State(), callee, env) != Wild
      modifies this`code, this`ip, this`ep, params
      ensures ok ==> State() == Enter(old(State()), callee, env)
      ensures !ok ==> Enter(old(State()), callee, env) == Thrown
    {
      ok := params[sp + 1].i == |callee.vars|;
      if ok {
        BoxArguments(callee.indirect);
        code, ip, ep := callee, 0, env;
      }
    }

    /** A library procedure: its result replaces its frame. */
    method Procedure(p: Prim) returns (r: Status)
      requires Valid() && HasFrame(Stack())
      modifies this`d1, this`sp, this`ip
      ensures Valid()
      ensures match CallPrim(p, Args(old(Stack()))) {
                case None => r == Throws
                case Some(c) => r == Next
                  && State() == old(State()).(d1 := c, stack := Pop(old(Stack())), ip := old(ip) + 1)
              }
    {
      var argc := params[sp + 1].i;
      assert params[sp + 2..sp + 2 + argc] == Args(Stack());
      match CallPrim(p, params[sp + 2..sp + 2 + argc]) {
        case None => r := Throws;
        case Some(c) =>
          assert params[sp + FrameSize(argc)..] == Pop(Stack());
          d1 := c;
          sp := sp + FrameSize(argc);
          ip := ip + 1;
          r := Next;
      }
    }

    method Call() returns (r: Status)
      requires Valid() && StepCall(State()) != Wild
      modifies this, params
      ensures Valid() && Follows(r, StepCall(old(State())))
      ensures r == Overflows ==> |old(rp)| >= MAX_CALLS
    {
      var callee := params[sp];
      if callee.PrimC? {
        r := Procedure(callee.p);
      } else if callee.CodeC? || callee.LambdaC? {
        if |rp| >= MAX_CALLS {
          return Overflows;
        }
        rp := [Return(code, ip, ep)] + rp;
        var ok := Begin(callee.code, if callee.LambdaC? then callee.env else []);
        r := if ok then Next else Throws;
      } else {
        r := Throws;
      }
    }

    method Tail() returns (r: Status)
      requires Valid() && StepTail(State()) != Wild
      modifies this, params
      ensures Valid() && r != Overflows && Follows(r, StepTail(old(State())))
    {
      var callee := params[sp];
      if callee.PrimC? {
        r := Procedure(callee.p);
      } else if callee.CodeC? || callee.LambdaC? {
        MoveFrame();
        var ok := Begin(callee.code, if callee.LambdaC? then callee.env else ep);
        r := if ok then Next else Throws;
      } else {
        r := Throws;
      }
    }

    method Ret() returns (r: Status)
      requires Valid() && StepRet(State()) != Wild
      modifies this
      ensures Valid() && r != Overflows && Follows(r, StepRet(old(State())))
    {
      if rp == [] {
        return Done(d1);
      }
      var argc := params[sp + 1].i;
      assert params[sp + FrameSize(argc)..] == Pop(Stack());
      sp := sp + FrameSize(argc);
      code, ip, ep := rp[0].code, rp[0].ip + 1, rp[0].ep;
      rp := rp[1..];
      r := Next;
    }

    /** The status of an instruction matches the outcome of the step. */
    ghost predicate Follows(r: Status, m: Machine)
      reads this, params
      requires Valid()
    {
      match r
      case Next => State() == m
      case Done(c) => m == Halted(c)
      case Throws => m == Thrown
      case Overflows => true
    }

    method Operand(defs: map<Symbol, Cell>, op: Opcode, w: Word) returns (r: Status)
      requires Valid() && StepOperand(defs, State(), op, w) != Wild
      modifies this, params
      ensures Valid() && Follows(r, StepOperand(defs, old(State()), op, w))
      ensures r == Overflows ==> op == CREATE_FRAME && w.n + 2 > old(sp)
    {
      r := Next;
      match op
      case LOAD =>
        d1 := w.v;
        ip := ip + 2;
      case LOAD_RELATIVE =>
        var c := if w.r.inEnv then ep[w.r.offset] else params[sp + w.r.offset];
        d1 := Unbox(c);
        ip := ip + 2;
      case STORE =>
        Store(w.n, d1);
        ip := ip + 2;
      case CDR =>
        if w.x in defs {
          d1 := defs[w.x];
          ip := ip + 2;
        } else {
          r := Throws;
        }
      case BF => ip := if d1 != BoolC(false) then ip + 2 else ip + w.n;
      case BRA => ip := ip + w.n;
      case CREATE_FRAME =>
        var ok := CreateFrame(w.n);
        if ok {
          ip := ip + 2;
        } else {
          r := Overflows;
        }
      case CREATE_LAMBDA =>
        var env := CopySlots(w.refs);
        d1 := LambdaC(w.code, env);
        ip := ip + 2;
      case ADDI => r := Arithmetic1(Add, w.n);
      case SUBI => r := Arithmetic1(Sub, w.n);
      case MULI => r := Arithmetic1(Mul, w.n);
      case DIVI => r := Arithmetic1(Div, w.n);
    }

    method Arithmetic1(op: ArithOp, k: int) returns (r: Status)
      requires Valid()
      modifies this`d1, this`ip
      ensures Valid() && r != Overflows && Follows(r, StepArith(old(State()), op, Long(k)))
    {
      if !d1.IntC? {
        return Throws;
      }
      match Combine(op, d1.i, k) {
        case None => r := Throws;
        case Some(i) =>
          d1 := IntC(i);
          ip := ip + 2;
          r := Next;
      }
    }

    /** One turn of the dispatch loop. */
    method Dispatch(defs: map<Symbol, Cell>) returns (r: Status)
      requires Valid() && SchemeMachine.Step(defs, State()) != Wild
      modifies this, params
      ensures Valid() && Follows(r, SchemeMachine.Step(defs, old(State())))
      ensures r == Overflows ==>
        || (old(code).words[old(ip)] == Op(CALL) && |old(rp)| >= MAX_CALLS)
        || (old(code).words[old(ip)] == Op(CREATE_FRAME) && old(code).words[old(ip) + 1].n + 2 > old(sp))
    {
      var w := code.words[ip].op;
      if w == CALL {
        r := Call();
      } else if w == TAIL {
        r := Tail();
      } else if w == RET {
        r := Ret();
      } else {
        r := Operand(defs, w, code.words[ip + 1]);
      }
    }
  }
}
