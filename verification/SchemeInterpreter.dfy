/** Compiler and machine together against the evaluator. */
module SchemeInterpreter {
  import opened Wrappers
  import opened Scheme
  import opened SchemeMachine
  import opened SchemeCode
  import opened SchemeRelation
  import opened SchemeSimulation
  import opened SchemeWalk
  import opened SchemeVm

  /** Compiled code never runs into a word, a slot or a frame that is not there. */
  lemma NeverWild(g: Globals, e: Expr, n: nat)
    ensures Steps(DefsOf(g), Start(g, e), n) != Wild
  {
    var k := SimProgram(g, e, n + 1);
    hide Eval, Steps, Form, Start, DefsOf;
    if Steps(DefsOf(g), Start(g, e), n) == Wild {
      StopsOnce(DefsOf(g), Start(g, e), n, k);
    }
  }

  lemma StepNext(defs: map<Symbol, Cell>, m: Machine, n: nat)
    ensures Steps(defs, m, n + 1) == Step(defs, Steps(defs, m, n))
  {
    StepsAdd(defs, m, n, 1);
    assert Steps(defs, Steps(defs, m, n), 1) == Steps(defs, Step(defs, Steps(defs, m, n)), 0);
  }

  /** What a run of the program came to within the given number of instructions. */
  datatype Result = Rejected | Finished(result: Cell) | Failed | NoRoom | Unfinished

  /** Compiles and runs a program.  A result is the form of the program's value, and a
      failure is an error of the program, unless the fixed stacks ran out. */
  method Interpret(g: Globals, e: Expr, size: nat, turns: nat) returns (r: Result)
    requires size >= 2
    ensures r == Rejected <==> !Accepted(e)
    ensures r.Finished? ==> exists v :: r.result == Form(g, v) && Evaluates(g, e, Val(v))
    ensures r == Failed ==> Evaluates(g, e, Err)
    ensures r == Unfinished ==> Steps(DefsOf(g), Start(g, e), turns).Running?
  {
    var compiled := CompileProgram(g, e);
    if compiled == None {
      return Rejected;
    }
    var defs := DefsOf(g);
    var vm := new Vm(compiled.value, size);
    ghost var start := Start(g, e);
    for i := 0 to turns
      invariant vm.Valid() && fresh(vm) && fresh(vm.params)
      invariant vm.State() == Steps(defs, start, i)
    {
      NeverWild(g, e, i + 1);
      StepNext(defs, start, i);
      var status := vm.Dispatch(defs);
      match status {
        case Next =>
        case Overflows => return NoRoom;
        case Done(c) =>
          ProgramEnds(g, e, i + 1, Halted(c));
          return Finished(c);
        case Throws =>
          ProgramEnds(g, e, i + 1, Thrown);
          return Failed;
      }
    }
    r := Unfinished;
  }

  lemma ProgramEnds(g: Globals, e: Expr, n: nat, end: Machine)
    requires Steps(DefsOf(g), Start(g, e), n) == end && !end.Running?
    ensures end.Thrown? ==> Evaluates(g, e, Err)
    ensures end.Halted? ==> exists v :: end.result == Form(g, v) && Evaluates(g, e, Val(v))
  {
    assert Reaches(g, e, end);
    CompilerCorrect(g, e, end);
    if end.Halted? {
      var v :| end == Halted(Form(g, v)) && Evaluates(g, e, Val(v));
      assert end.result == Form(g, v) && Evaluates(g, e, Val(v));
    }
  }
}
